/**
 Creating, rolling back, recovering, starting and removing one VM, when any call to
 the hypervisor may fail with or without having taken effect and the gateway may die
 after any of them. One operation at a time works on a VM's name.
 */
module Provisioning {
  import opened Framing

  /** The creation record kept in the domain; `Legacy` domains carry none. */
  datatype Mark = Legacy | Pending | Ready | RollingBack

  /** `bootable`: the full definition has replaced the placeholder. */
  datatype Domain = Domain(mark: Mark, bootable: bool, deleting: bool, autostart: bool, active: bool)

  datatype Volume = Absent | Partial | Whole

  datatype Host = Host(domain: Option<Domain>, disk: Volume, seed: Volume, reservation: bool)

  const NOTHING := Host(None, Absent, Absent, false)

  const PLACEHOLDER := Domain(Pending, false, false, false, false)

  predicate Complete(h: Host) {
    h.disk.Whole? && h.seed.Whole? && h.reservation
  }

  predicate Startable(d: Domain) {
    !d.deleting && (d.mark.Ready? || d.mark.Legacy?)
  }

  predicate Unfinished(d: Domain) {
    d.mark.Pending? || d.mark.RollingBack?
  }

  /**
   What holds at every instant: nothing exists without its domain; a domain that may
   be started, starts by itself, or runs has all its resources; a domain whose
   creation is unfinished does not start by itself, and while pending does not run.
   */
  predicate Safe(h: Host) {
    && (h.domain.None? ==> h == NOTHING)
    && (h.domain.Some? ==>
          var d := h.domain.value;
          && (Startable(d) || d.autostart || d.active ==> Complete(h) && d.bootable)
          && (Unfinished(d) ==> !d.autostart)
          && (d.mark.Pending? ==> !d.active))
  }

  /** `Dies`: the gateway process ends during the call. */
  datatype Outcome = Works | Fails(applied: bool, partly: bool) | Dies(applied: bool, partly: bool)

  predicate AllWork(script: seq<Outcome>) {
    forall i :: 0 <= i < |script| ==> script[i].Works?
  }

  class Gateway {
    var host: Host
    var script: seq<Outcome>
    var crashed: bool

    constructor (host: Host)
      requires Safe(host)
      ensures this.host == host && !crashed
    {
      this.host, script, crashed := host, [], false;
    }

    /** A change of the host from one safe state to another, which may or may not happen. */
    method Change(after: Host) returns (ok: bool)
      requires Safe(host) && Safe(after)
      modifies this
      ensures Safe(host) && (host == after || host == old(host))
      ensures ok ==> host == after && crashed == old(crashed)
      ensures AllWork(old(script)) ==> ok && AllWork(script)
    {
      var o := Works;
      if script != [] {
        o := script[0];
        script := script[1..];
      }
      ok := o.Works?;
      crashed := crashed || o.Dies?;
      if o.Works? || o.applied {
        host := after;
      }
    }

    /** A read, which may fail. */
    method Query() returns (ok: bool)
      requires Safe(host)
      modifies this
      ensures host == old(host) && (ok ==> crashed == old(crashed))
      ensures AllWork(old(script)) ==> ok && AllWork(script)
    {
      ok := Change(host);
    }

    /** Filling a volume, which may also stop half way. */
    method Fill(partly: Host, whole: Host) returns (ok: bool)
      requires Safe(host) && Safe(partly) && Safe(whole)
      modifies this
      ensures Safe(host) && (host == whole || host == partly || host == old(host))
      ensures ok ==> host == whole && crashed == old(crashed)
      ensures AllWork(old(script)) ==> ok && AllWork(script)
    {
      if script != [] && !script[0].Works? && !script[0].applied && script[0].partly {
        crashed := crashed || script[0].Dies?;
        host := partly;
        script := script[1..];
        return false;
      }
      ok := Change(whole);
    }

    method SetDomain(d: Domain) returns (ok: bool)
      requires Safe(host) && host.domain.Some? && Safe(host.(domain := Some(d)))
      modifies this
      ensures Safe(host) && (host == old(host) || host == old(host).(domain := Some(d)))
      ensures ok ==> host == old(host).(domain := Some(d)) && crashed == old(crashed)
      ensures AllWork(old(script)) ==> ok && AllWork(script)
    {
      ok := Change(host.(domain := Some(d)));
    }

    /** Removes what it can of both volumes and reports whether both are gone. */
    method RemoveVolumes() returns (ok: bool)
      requires Safe(host)
      requires host.domain.Some? ==>
                 var d := host.domain.value; !Startable(d) && !d.autostart && !d.active
      modifies this
      ensures Safe(host) && host.domain == old(host.domain) && host.reservation == old(host.reservation)
      ensures ok ==> host.disk.Absent? && host.seed.Absent? && crashed == old(crashed)
      ensures AllWork(old(script)) ==> ok && AllWork(script)
    {
      ok := Query();
      if !ok {
        return;
      }
      var disk := true;
      if !host.disk.Absent? {
        disk := Change(host.(disk := Absent));
        if crashed && !disk {
          return false;
        }
      }
      var seed := true;
      if !host.seed.Absent? {
        seed := Change(host.(seed := Absent));
      }
      ok := disk && seed;
    }

    method ReleaseNetwork() returns (ok: bool)
      requires Safe(host)
      requires host.domain.Some? ==>
                 var d := host.domain.value; !Startable(d) && !d.autostart && !d.active
      modifies this
      ensures Safe(host) && (host == old(host) || host == old(host).(reservation := false))
      ensures ok ==> !host.reservation && crashed == old(crashed)
      ensures AllWork(old(script)) ==> ok && AllWork(script)
    {
      ok := Query();
      if ok && host.reservation {
        ok := Change(host.(reservation := false));
      }
    }

    /** Undo an unfinished creation; with `rollback` also one already marked ready. */
    method RunRecovery(rollback: bool) returns (ok: bool)
      requires Safe(host) && host.domain.Some?
      requires rollback ==> !host.domain.value.autostart && !host.domain.value.mark.Legacy?
      modifies this
      ensures Safe(host)
      ensures ok ==> crashed == old(crashed)
      ensures ok && (rollback || old(Unfinished(host.domain.value))) ==> host == NOTHING
      ensures ok && !rollback && !old(Unfinished(host.domain.value)) ==> host == old(host)
      ensures AllWork(old(script)) ==> ok && AllWork(script)
    {
      var d := host.domain.value;
      ok := Query();
      if !ok || ((d.mark.Ready? || d.mark.Legacy?) && !rollback) {
        return;
      }
      if d.active && !rollback && !d.mark.RollingBack? {
        return false;
      }
      ok := Query();
      if !ok {
        return;
      }
      d := d.(mark := RollingBack);
      ok := SetDomain(d);
      if !ok {
        return;
      }
      if d.active {
        d := d.(active := false);
        ok := SetDomain(d);
        if !ok {
          return;
        }
      }
      ok := RemoveVolumes();
      if !ok {
        return;
      }
      ok := ReleaseNetwork();
      if !ok {
        return;
      }
      ok := Change(host.(domain := None));
    }

    /** Recovery at startup, or before a name is used again. */
    method Recover() returns (ok: bool)
      requires Safe(host)
      modifies this
      ensures Safe(host)
      ensures ok ==> crashed == old(crashed)
      ensures ok ==> host == if old(host.domain.Some? && Unfinished(host.domain.value)) then NOTHING else old(host)
      ensures AllWork(old(script)) ==> ok && AllWork(script)
    {
      ok := Query();
      if !ok || host.domain.None? {
        return;
      }
      ok := Query();
      if !ok || host.domain.value.mark.Legacy? || host.domain.value.mark.Ready? {
        return;
      }
      ok := RunRecovery(false);
    }

    method Rollback() returns (ok: bool)
      requires Safe(host)
      requires host.domain.Some? ==> !host.domain.value.autostart && !host.domain.value.mark.Legacy?
      modifies this
      ensures Safe(host)
      ensures ok ==> host == NOTHING && crashed == old(crashed)
      ensures AllWork(old(script)) ==> ok
    {
      ok := Query();
      if !ok || host.domain.None? {
        return;
      }
      ok := RunRecovery(true);
    }

    method BootVolumes(cancelled: bool) returns (ok: bool)
      requires Safe(host) && host.domain == Some(PLACEHOLDER) && host.disk.Absent? && host.seed.Absent?
      modifies this
      ensures Safe(host) && host.domain == Some(PLACEHOLDER) && host.reservation == old(host.reservation)
      ensures ok ==> host.disk.Whole? && host.seed.Whole? && crashed == old(crashed) && !cancelled
      ensures AllWork(old(script)) && !cancelled ==> ok && AllWork(script)
    {
      if cancelled {
        return false;
      }
      ok := Fill(host.(disk := Partial), host.(disk := Whole));
      if ok {
        ok := Fill(host.(seed := Partial), host.(seed := Whole));
      }
    }

    /** Define the domain in full, mark it ready, and only then start it for the first time. */
    method StartVM() returns (ok: bool)
      requires Safe(host) && host.domain == Some(PLACEHOLDER) && Complete(host)
      modifies this
      ensures Safe(host) && host.domain.Some? && !host.domain.value.autostart && !host.domain.value.mark.Legacy?
      ensures ok ==> crashed == old(crashed) && Complete(host)
                     && host.domain == Some(Domain(Ready, true, false, false, true))
      ensures AllWork(old(script)) ==> ok && AllWork(script)
    {
      ok := Query();
      if !ok {
        return;
      }
      var d := PLACEHOLDER.(bootable := true);
      ok := SetDomain(d);
      if !ok {
        return;
      }
      ok := Query();
      if !ok {
        return;
      }
      d := d.(mark := Ready);
      ok := SetDomain(d);
      if !ok {
        return;
      }
      ok := SetDomain(d.(active := true));
    }

    method ProvisionResources(cancelled: bool, cancelledLate: bool) returns (ok: bool)
      requires Safe(host) && host == NOTHING.(domain := Some(PLACEHOLDER))
      modifies this
      ensures Safe(host) && host.domain.Some? && !host.domain.value.autostart && !host.domain.value.mark.Legacy?
      ensures ok ==> crashed == old(crashed) && Complete(host)
                     && host.domain == Some(Domain(Ready, true, false, false, true))
      ensures AllWork(old(script)) && !cancelled && !cancelledLate ==> ok
    {
      if cancelled {
        return false;
      }
      ok := Change(host.(reservation := true));
      if !ok {
        return;
      }
      ok := BootVolumes(cancelled);
      if !ok {
        return;
      }
      ok := StartVM();
      ok := ok && !cancelledLate;
    }

    /**
     Create a VM. Success leaves it running and complete. A failure the gateway survives
     and rolls back without error leaves nothing of a name that was free or unfinished.
     */
    method Create(cancelled: bool, cancelledLate: bool) returns (ok: bool, clean: bool)
      requires Safe(host) && !crashed
      modifies this
      ensures Safe(host)
      ensures ok ==> !crashed && Complete(host) && host.domain == Some(Domain(Ready, true, false, false, true))
      ensures ok ==> old(host.domain.None? || Unfinished(host.domain.value))
      ensures !ok && clean ==> host == NOTHING || host == old(host)
      ensures old(host.domain.None? || Unfinished(host.domain.value)) ==>
                (AllWork(old(script)) && !cancelled && !cancelledLate ==> ok)
    {
      clean := false;
      ok := Recover();
      if !ok {
        return;
      }
      clean := true;
      ok := Query();
      if !ok || host.domain.Some? {
        return false, true;
      }
      // Quota reservation and the plan's checks that no same-named resource exists.
      ok := Query();
      if !ok {
        return;
      }
      ok := Query();
      if !ok || !host.disk.Absent? || !host.seed.Absent? || host.reservation {
        return false, true;
      }
      ok := Change(host.(domain := Some(PLACEHOLDER)));
      if ok {
        ok := ProvisionResources(cancelled, cancelledLate);
      }
      if !ok {
        clean := false;
        if !crashed {
          clean := Rollback();
        }
      }
    }

    /** Mark, stop, remove the resources, and only then forget the domain. */
    method Remove() returns (ok: bool)
      requires Safe(host)
      modifies this
      ensures Safe(host)
      ensures ok ==> host == NOTHING
      ensures old(host.domain.Some?) && host != old(host) ==>
                host.domain.None? || (host.domain.value.deleting && host.domain.value.mark == old(host.domain.value.mark))
      ensures AllWork(old(script)) ==> ok
    {
      ok := Query();
      if !ok {
        return;
      }
      if host.domain.Some? {
        ok := PrepareDeletion();
        if !ok {
          return;
        }
      }
      ok := RemoveVolumes();
      if !ok {
        return;
      }
      ok := ReleaseNetwork();
      if !ok {
        return;
      }
      if host.domain.Some? {
        ok := Change(host.(domain := None));
      }
    }

    method PrepareDeletion() returns (ok: bool)
      requires Safe(host) && host.domain.Some?
      modifies this
      ensures Safe(host) && host.domain.Some? && host.domain.value.mark == old(host.domain.value.mark)
      ensures host == old(host) || host.domain.value.deleting
      ensures ok ==> var d := host.domain.value; d.deleting && !d.autostart && !d.active
      ensures AllWork(old(script)) ==> ok && AllWork(script)
    {
      var d := host.domain.value.(deleting := true);
      ok := SetDomain(d);
      if !ok {
        return;
      }
      d := d.(autostart := false);
      ok := SetDomain(d);
      if !ok {
        return;
      }
      ok := Query();
      if ok && d.active {
        ok := SetDomain(d.(active := false));
      }
    }

    /** Start a stopped VM: refused while it is being deleted or its creation is unfinished. */
    method Start() returns (ok: bool)
      requires Safe(host)
      modifies this
      ensures Safe(host)
      ensures ok ==> host.domain.Some? && host.domain.value.active && Complete(host)
      ensures old(host.domain.None? || !Startable(host.domain.value)) ==> !ok && host == old(host)
      ensures AllWork(old(script)) && old(host.domain.Some? && Startable(host.domain.value)) ==> ok
    {
      ok := Query();
      if !ok || host.domain.None? {
        return false;
      }
      ok := Query();
      if !ok || !Startable(host.domain.value) {
        return false;
      }
      ok := Query();
      if ok && !host.domain.value.active {
        ok := SetDomain(host.domain.value.(active := true));
      }
    }

    /** Things that happen outside the gateway: the guest powers off, the host reboots, an operator sets autostart. */
    method Outside(event: Event)
      requires Safe(host)
      modifies this`host
      ensures Safe(host)
    {
      if host.domain.Some? {
        var d := host.domain.value;
        match event
        case GuestStops => host := host.(domain := Some(d.(active := false)));
        case HostReboots => host := host.(domain := Some(d.(active := d.autostart)));
        case OperatorAutostarts => if Startable(d) { host := host.(domain := Some(d.(autostart := true))); }
      }
    }

    /** Any sequence of operations, deaths and restarts keeps the host safe. */
    method Run(history: seq<Operation>)
      requires Safe(host)
      modifies this
      ensures Safe(host)
      ensures |history| > 0 && history[|history| - 1].Recovering? && AllWork(history[|history| - 1].script) ==>
                host.domain.None? || !Unfinished(host.domain.value)
      ensures |history| > 0 && history[|history| - 1].Removing? && AllWork(history[|history| - 1].script) ==>
                host == NOTHING
    {
      for i := 0 to |history|
        invariant Safe(host)
        invariant i > 0 && history[i - 1].Recovering? && AllWork(history[i - 1].script) ==>
                    host.domain.None? || !Unfinished(host.domain.value)
        invariant i > 0 && history[i - 1].Removing? && AllWork(history[i - 1].script) ==> host == NOTHING
      {
        crashed := false;
        match history[i]
        case Creating(outcomes, cancelled, late) =>
          script := outcomes;
          var ok, clean := Create(cancelled, late);
        case Recovering(outcomes) =>
          script := outcomes;
          var ok := Recover();
        case Removing(outcomes) =>
          script := outcomes;
          var ok := Remove();
        case Starting(outcomes) =>
          script := outcomes;
          var ok := Start();
        case External(event) => Outside(event);
      }
    }
  }

  datatype Event = GuestStops | HostReboots | OperatorAutostarts

  datatype Operation =
    | Creating(script: seq<Outcome>, cancelled: bool, cancelledLate: bool)
    | Recovering(script: seq<Outcome>)
    | Removing(script: seq<Outcome>)
    | Starting(script: seq<Outcome>)
    | External(event: Event)
}
