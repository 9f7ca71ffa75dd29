/** Stream ids `<ms>-<seq>` and row ids `<seq>:<index>` as text, and how they are read back. */
module Text {
  import opened Domain

  const I64_MAX: int := 0x7FFF_FFFF_FFFF_FFFF

  function Digit(d: nat): char
    requires d < 10
  {
    '0' + d as char
  }

  /** `to_string` of a number: no sign, no leading zeros. */
  function Decimal(n: nat): string {
    if n < 10 then [Digit(n)] else Decimal(n / 10) + [Digit(n % 10)]
  }

  predicate IsDigit(c: char) {
    '0' <= c <= '9'
  }

  predicate AllDigits(s: string) {
    forall i :: 0 <= i < |s| ==> IsDigit(s[i])
  }

  function ValueOf(s: string): nat
    requires AllDigits(s)
  {
    if s == [] then 0 else 10 * ValueOf(s[..|s| - 1]) + (s[|s| - 1] as int - '0' as int)
  }

  /** `parse` of an integer type with this maximum: one `+` is allowed, no digits or an overflow fails. */
  function ParseNumber(s: string, max: int): Option<nat> {
    var body := if s != [] && s[0] == '+' then s[1..] else s;
    if body == [] || !AllDigits(body) || ValueOf(body) > max then None else Some(ValueOf(body))
  }

  lemma {:induction false} DecimalReads(n: nat)
    ensures Decimal(n) != [] && AllDigits(Decimal(n)) && ValueOf(Decimal(n)) == n
  {
    if n >= 10 {
      DecimalReads(n / 10);
      var s := Decimal(n);
      assert s[..|s| - 1] == Decimal(n / 10);
    }
  }

  lemma ParseDecimal(n: nat, max: int)
    ensures ParseNumber(Decimal(n), max) == if n <= max then Some(n) else None
  {
    DecimalReads(n);
    assert IsDigit(Decimal(n)[0]);
  }

  // ----- splitting at the first occurrence -----

  function SplitOnce(s: string, c: char): Option<(string, string)> {
    if s == [] then None
    else if s[0] == c then Some(([], s[1..]))
    else
      match SplitOnce(s[1..], c)
      case None => None
      case Some(parts) => Some(([s[0]] + parts.0, parts.1))
  }

  lemma {:induction false} SplitJoined(x: string, c: char, y: string)
    requires c !in x
    ensures SplitOnce(x + [c] + y, c) == Some((x, y))
  {
    var s := x + [c] + y;
    if x == [] {
      assert s[1..] == y;
    } else {
      assert s[1..] == x[1..] + [c] + y;
      SplitJoined(x[1..], c, y);
      assert [x[0]] + x[1..] == x;
    }
  }

  lemma {:induction false} SplitFails(s: string, c: char)
    requires c !in s
    ensures SplitOnce(s, c) == None
  {
    if s != [] {
      SplitFails(s[1..], c);
    }
  }

  lemma NotADigit(n: nat, c: char)
    requires !IsDigit(c)
    ensures c !in Decimal(n)
  {
    DecimalReads(n);
    forall i | 0 <= i < |Decimal(n)| ensures Decimal(n)[i] != c {
      assert IsDigit(Decimal(n)[i]);
    }
  }

  // ----- stream ids -----

  type StreamId = (nat, nat)

  function FormatId(id: StreamId): string {
    Decimal(id.0) + ['-'] + Decimal(id.1)
  }

  function ParseId(s: string): Option<StreamId> {
    match SplitOnce(s, '-')
    case None => None
    case Some(parts) =>
      match ParseNumber(parts.0, U64_MAX)
      case None => None
      case Some(ms) =>
        match ParseNumber(parts.1, U64_MAX)
        case None => None
        case Some(n) => Some((ms, n))
  }

  predicate Before(x: StreamId, y: StreamId) {
    x.0 < y.0 || (x.0 == y.0 && x.1 < y.1)
  }

  function Earlier(a: string, b: string): string {
    var x, y := ParseId(a), ParseId(b);
    if x.Some? && y.Some? && Before(y.value, x.value) then b else a
  }

  predicate FitsU64(id: StreamId) {
    id.0 <= U64_MAX && id.1 <= U64_MAX
  }

  /** Reading back what the stream stamped gives the same id. */
  lemma IdRoundTrip(id: StreamId)
    requires FitsU64(id)
    ensures ParseId(FormatId(id)) == Some(id)
  {
    NotADigit(id.0, '-');
    SplitJoined(Decimal(id.0), '-', Decimal(id.1));
    ParseDecimal(id.0, U64_MAX);
    ParseDecimal(id.1, U64_MAX);
  }

  ghost predicate Chronological(ids: seq<StreamId>) {
    && (forall i :: 0 <= i < |ids| ==> FitsU64(ids[i]))
    && (forall i, j :: 0 <= i < j < |ids| ==> ids[i].0 < ids[j].0 || (ids[i].0 == ids[j].0 && ids[i].1 < ids[j].1))
  }

  lemma EarlierOf(x: StreamId, y: StreamId)
    requires FitsU64(x) && FitsU64(y)
    ensures Earlier(FormatId(x), FormatId(y)) == FormatId(if Before(y, x) then y else x)
  {
    IdRoundTrip(x);
    IdRoundTrip(y);
  }

  /** Of two entries of one stream, the text comparison picks the one appended first. */
  lemma EarlierIsFirst(ids: seq<StreamId>, i: nat, j: nat)
    requires Chronological(ids) && i < |ids| && j < |ids|
    ensures Earlier(FormatId(ids[i]), FormatId(ids[j])) == FormatId(ids[Min(i, j)])
  {
    EarlierOf(ids[i], ids[j]);
    assert i < j ==> Before(ids[i], ids[j]);
    assert j < i ==> Before(ids[j], ids[i]);
  }

  /** Text that is no stream id on either side never moves the answer off the first argument. */
  lemma EarlierOfUnparsed(a: string, b: string)
    requires '-' !in a || '-' !in b
    ensures Earlier(a, b) == a
  {
    if '-' !in a {
      SplitFails(a, '-');
    } else {
      SplitFails(b, '-');
    }
  }

  // ----- row ids -----

  function RowId(seqNo: nat, index: nat): string {
    Decimal(seqNo) + [':'] + Decimal(index)
  }

  /** Different events have different row ids. */
  lemma RowIdInjective(s: nat, i: nat, t: nat, j: nat)
    requires RowId(s, i) == RowId(t, j)
    ensures s == t && i == j
  {
    NotADigit(s, ':');
    NotADigit(t, ':');
    SplitJoined(Decimal(s), ':', Decimal(i));
    SplitJoined(Decimal(t), ':', Decimal(j));
    DecimalReads(s);
    DecimalReads(t);
    DecimalReads(i);
    DecimalReads(j);
  }

  /** The milliseconds part of a stream id. */
  function EntryMillis(id: string): Option<nat> {
    match SplitOnce(id, '-')
    case None => None
    case Some(parts) => ParseNumber(parts.0, I64_MAX)
  }

  lemma MillisOfStreamId(id: StreamId)
    ensures EntryMillis(FormatId(id)) == if id.0 <= I64_MAX then Some(id.0) else None
  {
    NotADigit(id.0, '-');
    SplitJoined(Decimal(id.0), '-', Decimal(id.1));
    ParseDecimal(id.0, I64_MAX);
  }

  /** Trades are stamped through their row id, which has no milliseconds: the writer's clock decides. */
  lemma RowIdHasNoMillis(seqNo: nat, index: nat)
    ensures EntryMillis(RowId(seqNo, index)) == None
  {
    NotADigit(seqNo, '-');
    NotADigit(index, '-');
    SplitFails(RowId(seqNo, index), '-');
  }
}
