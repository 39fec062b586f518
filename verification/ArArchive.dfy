/**
 The ar archives a Debian package is made of: fixed 60-byte headers with a
 space-padded decimal size field, bodies padded to even length.
 */
module ArArchive {
  import opened Framing

  const SPACE: byte := 32
  const MAGIC: Bytes := [33, 60, 97, 114, 99, 104, 62, 10]
  const HEADER_SIZE: nat := 60
  const SIZE_START: nat := 48
  const SIZE_END: nat := 58
  const SIZE_WIDTH: nat := 10
  const MODE: Bytes := [54, 52, 52]
  const TRAILER: Bytes := [96, 10]

  /** One entry: its header verbatim and its body without padding. */
  datatype Member = Member(header: Bytes, data: Bytes)

  // Decimal fields.

  function Digits(n: nat): (s: Bytes)
    ensures |s| > 0
    decreases n
  {
    if n < 10 then [48 + n] else Digits(n / 10) + [48 + n % 10]
  }

  function Decimal(n: int): Bytes {
    if n < 0 then [45] + Digits(-n) else Digits(n)
  }

  function Spaces(n: nat): Bytes {
    seq(n, _ => SPACE)
  }

  function Padded(s: Bytes, width: nat): Bytes {
    if |s| >= width then s else s + Spaces(width - |s|)
  }

  function Trimmed(s: Bytes): Bytes
    decreases |s|
  {
    if s != [] && s[|s| - 1] == SPACE then Trimmed(s[..|s| - 1]) else s
  }

  function Number(s: Bytes): Option<nat>
    decreases |s|
  {
    if s == [] then None
    else
      var d := s[|s| - 1];
      if !(48 <= d <= 57) then None
      else if |s| == 1 then Some(d - 48)
      else match Number(s[..|s| - 1])
           case None => None
           case Some(n) => Some(10 * n + d - 48)
  }

  /** Decimal with an optional sign. */
  function Atoi(s: Bytes): Option<int> {
    if s != [] && (s[0] == 45 || s[0] == 43) then
      match Number(s[1..])
      case None => None
      case Some(n) => Some(if s[0] == 45 then 0 - n as int else n as int)
    else match Number(s)
         case None => None
         case Some(n) => Some(n)
  }

  lemma {:induction false} DigitsRead(n: nat)
    ensures Number(Digits(n)) == Some(n)
    ensures forall i :: 0 <= i < |Digits(n)| ==> 48 <= Digits(n)[i] <= 57
    decreases n
  {
    if n >= 10 {
      DigitsRead(n / 10);
      var s := Digits(n);
      assert s[..|s| - 1] == Digits(n / 10);
    }
  }

  lemma {:induction false} TrimPadding(s: Bytes, k: nat)
    requires s == [] || s[|s| - 1] != SPACE
    ensures Trimmed(s + Spaces(k)) == s
    decreases k
  {
    var padded := s + Spaces(k);
    if k == 0 {
      assert padded == s;
    } else {
      assert padded[..|padded| - 1] == s + Spaces(k - 1);
      TrimPadding(s, k - 1);
    }
  }

  /** A size field reads back as the size it was printed from. */
  lemma SizeFieldReads(n: nat)
    ensures Atoi(Trimmed(Padded(Digits(n), SIZE_WIDTH))) == Some(n)
  {
    hide Digits, Number, Trimmed;
    DigitsRead(n);
    var s := Digits(n);
    TrimPadding(s, if |s| >= SIZE_WIDTH then 0 else SIZE_WIDTH - |s|);
    assert s + Spaces(0) == s;
  }

  function Pow10(k: nat): nat
    decreases k
  {
    if k == 0 then 1 else 10 * Pow10(k - 1)
  }

  lemma {:induction false} DigitsLength(n: nat, k: nat)
    requires k > 0
    ensures |Digits(n)| <= k <==> n < Pow10(k)
    decreases k
  {
    if k > 1 && n >= 10 {
      DigitsLength(n / 10, k - 1);
      assert n < Pow10(k) <==> n / 10 < Pow10(k - 1);
    } else if k > 1 {
      PowAtLeast(k);
    } else {
      assert Pow10(1) == 10 * Pow10(0);
    }
  }

  lemma {:induction false} PowAtLeast(k: nat)
    requires k > 0
    ensures Pow10(k) >= 10
    decreases k
  {
    if k > 1 {
      PowAtLeast(k - 1);
    } else {
      assert Pow10(1) == 10 * Pow10(0);
    }
  }

  // Members.

  /** A header whose size field was printed from the body's length. */
  predicate Sized(m: Member) {
    && |m.header| == HEADER_SIZE
    && |Digits(|m.data|)| <= SIZE_WIDTH
    && m.header[SIZE_START..SIZE_END] == Padded(Digits(|m.data|), SIZE_WIDTH)
  }

  function Header(name: Bytes, unix: int, size: nat): Bytes {
    Padded(name, 16) + Padded(Decimal(unix), 12) + Padded(Digits(0), 6) + Padded(Digits(0), 6) +
    Padded(MODE, 8) + Padded(Digits(size), SIZE_WIDTH) + TRAILER
  }

  function NewMember(name: Bytes, body: Bytes, unix: int): Option<Member> {
    var header := Header(name, unix, |body|);
    if |name| > 16 || |header| != HEADER_SIZE then None else Some(Member(header, body))
  }

  function SetSize(header: Bytes, size: nat): Bytes
    requires |header| == HEADER_SIZE
  {
    header[..SIZE_START] + Padded(Digits(size), SIZE_WIDTH) + header[SIZE_END..]
  }

  lemma PaddedLength(s: Bytes, width: nat)
    ensures |Padded(s, width)| == if |s| >= width then |s| else width
  {
  }

  /** The printer succeeds exactly when every field fits, and then the size field is right. */
  lemma NewMemberIsSized(name: Bytes, body: Bytes, unix: int)
    ensures NewMember(name, body, unix).Some? <==>
              |name| <= 16 && |Decimal(unix)| <= 12 && |body| < Pow10(SIZE_WIDTH)
    ensures NewMember(name, body, unix).Some? ==>
              var m := NewMember(name, body, unix).value;
              Sized(m) && m.data == body && m.header[..16] == Padded(name, 16)
  {
    hide Digits;
    DigitsLength(|body|, SIZE_WIDTH);
    ZeroDigits();
    PaddedLength(name, 16);
    PaddedLength(Decimal(unix), 12);
    PaddedLength(Digits(0), 6);
    PaddedLength(MODE, 8);
    PaddedLength(Digits(|body|), SIZE_WIDTH);
    if NewMember(name, body, unix).Some? {
      var header := Header(name, unix, |body|);
      var front := Padded(name, 16) + Padded(Decimal(unix), 12) + Padded(Digits(0), 6) + Padded(Digits(0), 6) + Padded(MODE, 8);
      assert header == front + Padded(Digits(|body|), SIZE_WIDTH) + TRAILER;
      assert header[SIZE_START..SIZE_END] == Padded(Digits(|body|), SIZE_WIDTH);
      assert header[..16] == Padded(name, 16);
    }
  }

  lemma ZeroDigits()
    ensures |Digits(0)| == 1
  {
  }

  /** The name reads back unless it ends in a space. */
  lemma NameReads(name: Bytes, body: Bytes, unix: int)
    requires NewMember(name, body, unix).Some? && (name == [] || name[|name| - 1] != SPACE)
    ensures Trimmed(NewMember(name, body, unix).value.header[..16]) == name
  {
    NewMemberIsSized(name, body, unix);
    TrimPadding(name, 16 - |name|);
    assert name + Spaces(0) == name;
  }

  // What each field of a new header says.

  /** Bytes that are the characters of a text. */
  predicate Spells(b: Bytes, text: string) {
    |b| == |text| && forall i :: 0 <= i < |b| ==> b[i] == text[i] as int
  }

  lemma DecimalReads(n: int, width: nat)
    ensures Atoi(Trimmed(Padded(Decimal(n), width))) == Some(n)
  {
    hide Digits, Number, Trimmed;
    var digits := Digits(if n < 0 then -n else n);
    DigitsRead(if n < 0 then -n else n);
    var s := Decimal(n);
    assert n < 0 ==> s[1..] == digits;
    TrimPadding(s, if |s| >= width then 0 else width - |s|);
    assert s + Spaces(0) == s;
  }

  lemma HeaderSplits(name: Bytes, unix: int, size: nat)
    requires |name| <= 16 && |Decimal(unix)| <= 12 && |Digits(size)| <= SIZE_WIDTH
    ensures var h := Header(name, unix, size);
            && |h| == 60 && h[..16] == Padded(name, 16) && h[16..28] == Padded(Decimal(unix), 12)
            && h[28..34] == h[34..40] == Padded(Decimal(0), 6) && h[40..48] == Padded(MODE, 8)
            && h[48..58] == Padded(Decimal(size), SIZE_WIDTH) && h[58..60] == TRAILER
  {
    hide Digits;
    assert Decimal(0) == Digits(0) && Decimal(size) == Digits(size);
    ZeroDigits();
    PaddedLength(name, 16);
    PaddedLength(Decimal(unix), 12);
    PaddedLength(Digits(0), 6);
    PaddedLength(MODE, 8);
    PaddedLength(Digits(size), SIZE_WIDTH);
    hide Padded, Decimal;
    SevenFields(Padded(name, 16), Padded(Decimal(unix), 12), Padded(Digits(0), 6), Padded(MODE, 8), Padded(Digits(size), SIZE_WIDTH));
  }

  lemma SevenFields(name: Bytes, time: Bytes, zero: Bytes, mode: Bytes, size: Bytes)
    requires |name| == 16 && |time| == 12 && |zero| == 6 && |mode| == 8 && |size| == 10
    ensures var h := name + time + zero + zero + mode + size + TRAILER;
            && |h| == 60 && h[..16] == name && h[16..28] == time && h[28..34] == zero && h[34..40] == zero
            && h[40..48] == mode && h[48..58] == size && h[58..60] == TRAILER
  {
  }

  /** Time, owner, group, mode, size and end mark stand at their offsets, and the numbers read back. */
  lemma HeaderFields(name: Bytes, body: Bytes, unix: int)
    requires NewMember(name, body, unix).Some?
    ensures var h := NewMember(name, body, unix).value.header;
            && |h| == 60
            && Atoi(Trimmed(h[16..28])) == Some(unix)
            && Atoi(Trimmed(h[28..34])) == Some(0) && Atoi(Trimmed(h[34..40])) == Some(0)
            && Spells(h[40..48], "644     ")
            && Atoi(Trimmed(h[48..58])) == Some(|body|)
            && Spells(h[58..60], "`\n")
  {
    hide Digits, Number, Trimmed;
    NewMemberIsSized(name, body, unix);
    HeaderSplits(name, unix, |body|);
    DecimalReads(unix, 12);
    DecimalReads(0, 6);
    DecimalReads(|body|, SIZE_WIDTH);
  }

  // Archives.

  function Encoded(m: Member): Bytes {
    m.header + m.data + if |m.data| % 2 == 1 then [NEWLINE] else []
  }

  function Body(members: seq<Member>): Bytes
    decreases |members|
  {
    if members == [] then [] else Encoded(members[0]) + Body(members[1..])
  }

  function Written(members: seq<Member>): Bytes {
    MAGIC + Body(members)
  }

  /** `Panics`: a negative size makes the slice expression fail. */
  datatype Outcome =
    | Members(members: seq<Member>)
    | BadMagic
    | TruncatedHeader(offset: nat)
    | BadSize(offset: nat)
    | TruncatedMember(offset: nat)
    | Panics

  function Next(start: nat, size: nat): nat {
    start + size + size % 2
  }

  function SizeAt(b: Bytes, off: nat): Option<int>
    requires off + HEADER_SIZE <= |b|
  {
    Atoi(Trimmed(b[off + SIZE_START..off + SIZE_END]))
  }

  function ParsedFrom(b: Bytes, off: nat): Outcome
    decreases |b| - off
  {
    if off >= |b| then Members([])
    else if off + HEADER_SIZE > |b| then TruncatedHeader(off)
    else match SizeAt(b, off)
         case None => BadSize(off)
         case Some(size) =>
           var start := off + HEADER_SIZE;
           if start + size > |b| then TruncatedMember(off)
           else if size < 0 then Panics
           else match ParsedFrom(b, Next(start, size))
                case Members(rest) => Members([Member(b[off..start], b[start..start + size])] + rest)
                case other => other
  }

  function Parsed(b: Bytes): Outcome {
    if MAGIC <= b then ParsedFrom(b, |MAGIC|) else BadMagic
  }

  // Round trips.

  lemma ParsesFirst(pre: Bytes, m: Member, post: Bytes)
    requires Sized(m)
    ensures var b := pre + Encoded(m) + post;
            var off := |pre|;
            var start := off + HEADER_SIZE;
            && off < |b| && start + |m.data| <= |b|
            && SizeAt(b, off) == Some(|m.data|)
            && b[off..start] == m.header && b[start..start + |m.data|] == m.data
            && Next(start, |m.data|) == |pre + Encoded(m)|
  {
    var b := pre + Encoded(m) + post;
    var off := |pre|;
    SizeFieldReads(|m.data|);
    assert b[off..off + HEADER_SIZE] == m.header;
    assert b[off + SIZE_START..off + SIZE_END] == m.header[SIZE_START..SIZE_END];
  }

  lemma {:induction false} ParseAfter(pre: Bytes, members: seq<Member>)
    requires forall i :: 0 <= i < |members| ==> Sized(members[i])
    ensures ParsedFrom(pre + Body(members), |pre|) == Members(members)
    decreases |members|
  {
    hide Sized, Encoded, SizeAt, Next;
    if members == [] {
      assert pre + [] == pre;
    } else {
      var m, rest := members[0], members[1..];
      ParsesFirst(pre, m, Body(rest));
      var next := pre + Encoded(m);
      assert pre + Body(members) == next + Body(rest);
      ParseAfter(next, rest);
      assert [m] + rest == members;
    }
  }

  /** Parsing what was written gives back every header and body. */
  lemma RoundTrip(members: seq<Member>)
    requires forall i :: 0 <= i < |members| ==> Sized(members[i])
    ensures Parsed(Written(members)) == Members(members)
  {
    ParseAfter(MAGIC, members);
  }

  /** Every archive starts with the ar signature, and nothing else is read as one. */
  lemma SignatureIsFixed(members: seq<Member>, b: Bytes)
    ensures Spells(Written(members)[..8], "!<arch>\n")
    ensures Parsed(b) == BadMagic <==> |b| < 8 || !Spells(b[..8], "!<arch>\n")
  {
    NeverBadMagic(b, |MAGIC|);
    if |b| >= 8 && Spells(b[..8], "!<arch>\n") {
      assert b[..8] == MAGIC;
    }
  }

  lemma {:induction false} NeverBadMagic(b: Bytes, off: nat)
    ensures !ParsedFrom(b, off).BadMagic?
    decreases |b| - off
  {
    hide SizeAt;
    if WholeAt(b, off) {
      NeverBadMagic(b, Next(off + HEADER_SIZE, SizeAt(b, off).value));
    }
  }

  /** Replacing a body whose length fits the field keeps the member well-sized and the rest of its header. */
  lemma SetSizeIsSized(header: Bytes, data: Bytes)
    requires |header| == HEADER_SIZE && |data| < Pow10(SIZE_WIDTH)
    ensures Sized(Member(SetSize(header, |data|), data))
    ensures SetSize(header, |data|)[..SIZE_START] == header[..SIZE_START]
    ensures SetSize(header, |data|)[SIZE_END..] == header[SIZE_END..]
  {
    DigitsLength(|data|, SIZE_WIDTH);
    PaddedLength(Digits(|data|), SIZE_WIDTH);
  }

  /** Every odd-sized body is followed by a newline. */
  predicate PaddedWithNewlines(b: Bytes, off: nat, members: seq<Member>)
    decreases |members|
  {
    members == [] ||
    (var next := Next(off + HEADER_SIZE, |members[0].data|);
     && (|members[0].data| % 2 == 1 ==> next <= |b| && b[next - 1] == NEWLINE)
     && PaddedWithNewlines(b, next, members[1..]))
  }

  /** What a successful parse says about the first member. */
  lemma ParsedFirst(b: Bytes, off: nat)
    requires off < |b| && ParsedFrom(b, off).Members?
    ensures var members := ParsedFrom(b, off).members;
            && members != []
            && var start := off + HEADER_SIZE;
               var size := |members[0].data|;
               var next := Next(start, size);
               && start + size <= |b| && next > off && ParsedFrom(b, next) == Members(members[1..])
               && members[0] == Member(b[off..start], b[start..start + size])
  {
    var size := SizeAt(b, off).value;
    var rest := ParsedFrom(b, Next(off + HEADER_SIZE, size)).members;
    assert ParsedFrom(b, off).members[1..] == rest;
  }

  lemma {:induction false} RewriteFrom(b: Bytes, off: nat)
    requires off <= |b| && ParsedFrom(b, off).Members?
    ensures var members := ParsedFrom(b, off).members;
            b[off..] == Body(members) <==> PaddedWithNewlines(b, off, members)
    decreases |b| - off
  {
    if off < |b| {
      ParsedFirst(b, off);
      hide ParsedFrom, Encoded, Next;
      var members := ParsedFrom(b, off).members;
      var next := Next(off + HEADER_SIZE, |members[0].data|);
      if next <= |b| {
        RewriteFrom(b, next);
        RewriteStep(b, off, members[0], members[1..], next);
      } else {
        RewriteShort(b, off, members[0], members[1..]);
      }
    }
  }

  /** A last odd body without its padding byte is not what would be written. */
  lemma RewriteShort(b: Bytes, off: nat, m: Member, rest: seq<Member>)
    requires off < |b| && Next(off + HEADER_SIZE, |m.data|) > |b| && |m.header| == HEADER_SIZE
    requires off + HEADER_SIZE + |m.data| <= |b|
    ensures |m.data| % 2 == 1
    ensures b[off..] != Encoded(m) + Body(rest)
  {
    assert |Encoded(m)| == Next(off + HEADER_SIZE, |m.data|) - off;
    assert |b[off..]| < |Encoded(m) + Body(rest)|;
  }

  lemma RewriteStep(b: Bytes, off: nat, m: Member, rest: seq<Member>, next: nat)
    requires off + HEADER_SIZE + |m.data| <= next <= |b| && next == Next(off + HEADER_SIZE, |m.data|)
    requires m.header == b[off..off + HEADER_SIZE] && m.data == b[off + HEADER_SIZE..off + HEADER_SIZE + |m.data|]
    ensures b[off..] == Encoded(m) + Body(rest) <==>
            (|m.data| % 2 == 1 ==> b[next - 1] == NEWLINE) && b[next..] == Body(rest)
  {
    var end := off + HEADER_SIZE + |m.data|;
    assert b[off..] == m.header + m.data + b[end..next] + b[next..];
    if b[off..] == Encoded(m) + Body(rest) {
      assert b[next..] == b[off..][next - off..];
      assert (Encoded(m) + Body(rest))[next - off..] == Body(rest);
      assert |m.data| % 2 == 1 ==> b[off..][next - 1 - off] == NEWLINE;
    } else if |m.data| % 2 == 1 && b[next - 1] == NEWLINE {
      assert b[end..next] == [NEWLINE];
    }
  }

  /** An archive that parses is written back byte for byte exactly when its padding is newlines. */
  lemma RewritesExactly(b: Bytes)
    requires Parsed(b).Members?
    ensures Written(Parsed(b).members) == b <==> PaddedWithNewlines(b, |MAGIC|, Parsed(b).members)
  {
    RewriteFrom(b, |MAGIC|);
    assert b == MAGIC + b[|MAGIC|..];
    if Written(Parsed(b).members) == b {
      assert b[|MAGIC|..] == Body(Parsed(b).members);
    }
  }

  // When parsing panics.

  predicate WholeAt(b: Bytes, off: nat) {
    off + HEADER_SIZE <= |b| && SizeAt(b, off).Some? && 0 <= SizeAt(b, off).value <= |b| - off - HEADER_SIZE
  }

  predicate NegativeAt(b: Bytes, off: nat) {
    off + HEADER_SIZE <= |b| && SizeAt(b, off).Some? && SizeAt(b, off).value < 0
  }

  /** The offsets are those of consecutive headers from `off` on, all but the last of whole members. */
  predicate Headers(b: Bytes, off: nat, offsets: seq<nat>)
    decreases |offsets|
  {
    offsets != [] && offsets[0] == off &&
    (|offsets| > 1 ==> WholeAt(b, off) && Headers(b, Next(off + HEADER_SIZE, SizeAt(b, off).value), offsets[1..]))
  }

  ghost predicate ReachesNegative(b: Bytes, off: nat) {
    exists offsets :: Headers(b, off, offsets) && NegativeAt(b, offsets[|offsets| - 1])
  }

  lemma ReachesNext(b: Bytes, off: nat)
    requires WholeAt(b, off)
    ensures ReachesNegative(b, off) <==> ReachesNegative(b, Next(off + HEADER_SIZE, SizeAt(b, off).value))
  {
    hide SizeAt, Next;
    var next := Next(off + HEADER_SIZE, SizeAt(b, off).value);
    if ReachesNegative(b, off) {
      var offsets :| Headers(b, off, offsets) && NegativeAt(b, offsets[|offsets| - 1]);
      assert Headers(b, next, offsets[1..]) && NegativeAt(b, offsets[1..][|offsets[1..]| - 1]);
    }
    if ReachesNegative(b, next) {
      var offsets :| Headers(b, next, offsets) && NegativeAt(b, offsets[|offsets| - 1]);
      assert ([off] + offsets)[1..] == offsets;
      assert Headers(b, off, [off] + offsets) && NegativeAt(b, ([off] + offsets)[|[off] + offsets| - 1]);
    }
  }

  lemma ReachesHere(b: Bytes, off: nat)
    requires !WholeAt(b, off)
    ensures ReachesNegative(b, off) <==> NegativeAt(b, off)
  {
    hide SizeAt, Next;
    if NegativeAt(b, off) {
      assert Headers(b, off, [off]) && NegativeAt(b, [off][|[off]| - 1]);
    }
  }

  lemma {:induction false} PanicsFrom(b: Bytes, off: nat)
    ensures ParsedFrom(b, off).Panics? <==> ReachesNegative(b, off)
    decreases |b| - off
  {
    hide SizeAt, ReachesNegative;
    if WholeAt(b, off) {
      ReachesNext(b, off);
      PanicsFrom(b, Next(off + HEADER_SIZE, SizeAt(b, off).value));
    } else {
      ReachesHere(b, off);
    }
  }

  /** Parsing panics exactly when whole members lead to a header whose size reads negative. */
  lemma PanicsExactly(b: Bytes)
    ensures Parsed(b).Panics? <==> MAGIC <= b && ReachesNegative(b, |MAGIC|)
  {
    hide ReachesNegative, ParsedFrom;
    PanicsFrom(b, |MAGIC|);
  }

  // The code in its own form.

  class ArMember {
    const header: array<byte>
    var data: Bytes

    ghost predicate Valid()
      reads this
    {
      header.Length == HEADER_SIZE
    }

    ghost function Value(): Member
      reads this, header
    {
      Member(header[..], data)
    }

    constructor (m: Member)
      requires |m.header| == HEADER_SIZE
      ensures Valid() && fresh(header) && Value() == m
    {
      var h := new byte[HEADER_SIZE](i requires 0 <= i < HEADER_SIZE => m.header[i]);
      header, data := h, m.data;
      new;
      assert header[..] == m.header;
    }

    /** Replaces the body and rewrites the size field; a length too long for the field panics. */
    method SetData(b: Bytes) returns (ok: bool)
      requires Valid()
      modifies this`data, header
      ensures data == b
      ensures ok <==> |b| < Pow10(SIZE_WIDTH)
      ensures header[..] == if ok then SetSize(old(header[..]), |b|) else old(header[..])
    {
      data := b;
      DigitsLength(|b|, SIZE_WIDTH);
      if |Digits(|b|)| > SIZE_WIDTH {
        return false;
      }
      var field := Padded(Digits(|b|), SIZE_WIDTH);
      PaddedLength(Digits(|b|), SIZE_WIDTH);
      for i := 0 to SIZE_WIDTH
        invariant header[..SIZE_START] == old(header[..SIZE_START]) && header[SIZE_END..] == old(header[SIZE_END..])
        invariant header[SIZE_START..SIZE_START + i] == field[..i] && data == b
      {
        header[SIZE_START + i] := field[i];
      }
      assert header[..] == header[..SIZE_START] + header[SIZE_START..SIZE_END] + header[SIZE_END..];
      ok := true;
    }
  }

  method WriteAr(members: seq<Member>) returns (buf: Bytes)
    ensures buf == Written(members)
  {
    buf := MAGIC;
    for i := 0 to |members|
      invariant buf + Body(members[i..]) == Written(members)
    {
      var m := members[i];
      assert members[i..][0] == m && members[i..][1..] == members[i + 1..];
      ghost var was := buf;
      buf := buf + m.header + m.data;
      if |m.data| % 2 == 1 {
        buf := buf + [NEWLINE];
      }
      assert buf == was + Encoded(m);
      assert was + (Encoded(m) + Body(members[i + 1..])) == buf + Body(members[i + 1..]);
    }
    assert Body(members[|members|..]) == [];
  }

  /** Parsing goes on with what was read so far in front. */
  ghost function After(members: seq<Member>, rest: Outcome): Outcome {
    if rest.Members? then Members(members + rest.members) else rest
  }

  method ParseAr(b: Bytes) returns (r: Outcome)
    ensures r == Parsed(b)
  {
    hide Trimmed, Atoi;
    if !(MAGIC <= b) {
      return BadMagic;
    }
    var off := |MAGIC|;
    var members: seq<Member> := [];
    while off < |b|
      invariant Parsed(b) == After(members, ParsedFrom(b, off))
      decreases |b| - off
    {
      if off + HEADER_SIZE > |b| {
        return TruncatedHeader(off);
      }
      var parsed := Atoi(Trimmed(b[off + SIZE_START..off + SIZE_END]));
      if parsed.None? {
        return BadSize(off);
      }
      var size := parsed.value;
      var start := off + HEADER_SIZE;
      if start + size > |b| {
        return TruncatedMember(off);
      }
      if size < 0 {
        return Panics;
      }
      ghost var was := members;
      var m := Member(b[off..start], b[start..start + size]);
      members := members + [m];
      ParseContinues(b, off, was, m, size);
      off := start + size;
      if size % 2 == 1 {
        off := off + 1;
      }
    }
    assert members + [] == members;
    r := Members(members);
  }

  lemma ParseContinues(b: Bytes, off: nat, was: seq<Member>, m: Member, size: nat)
    requires off + HEADER_SIZE + size <= |b| && SizeAt(b, off) == Some(size)
    requires m == Member(b[off..off + HEADER_SIZE], b[off + HEADER_SIZE..off + HEADER_SIZE + size])
    ensures After(was, ParsedFrom(b, off)) == After(was + [m], ParsedFrom(b, Next(off + HEADER_SIZE, size)))
  {
    var rest := ParsedFrom(b, Next(off + HEADER_SIZE, size));
    if rest.Members? {
      assert was + ([m] + rest.members) == (was + [m]) + rest.members;
    }
  }
}
