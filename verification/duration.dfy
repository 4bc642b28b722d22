/**
  `format_timedelta`: a positive duration rendered as at most two of its
  non-zero day / hour / minute components (seconds only when there are
  none), joined by a space; "n/a" for a missing, unreadable or
  non-positive duration.
 */
module Duration {
  import opened Wrappers
  import opened Decimal

  const NotApplicable: string := "n/a"

  /** The argument: `None`, an object whose `total_seconds()` raises, or a span of seconds. */
  datatype Delta = Missing | Unreadable | Span(seconds: real)

  /** Python's `int(x)` on a float: truncation toward zero. */
  function TruncateTowardZero(x: real): (t: int)
    ensures x >= 0.0 ==> 0 <= t && t as real <= x < t as real + 1.0
    ensures x < 0.0 ==> t <= 0 && t as real - 1.0 < x <= t as real
  {
    if x >= 0.0 then x.Floor else -((-x).Floor)
  }

  datatype Unit = Days | Hours | Minutes | Seconds

  function UnitSeconds(u: Unit): nat
  {
    match u
    case Days => 86400
    case Hours => 3600
    case Minutes => 60
    case Seconds => 1
  }

  function UnitChar(u: Unit): (c: char)
    ensures !IsDigit(c) && c != ' '
  {
    match u
    case Days => 'd'
    case Hours => 'h'
    case Minutes => 'm'
    case Seconds => 's'
  }

  function UnitOf(c: char): (u: Option<Unit>)
  {
    if c == 'd' then Some(Days)
    else if c == 'h' then Some(Hours)
    else if c == 'm' then Some(Minutes)
    else if c == 's' then Some(Seconds)
    else None
  }

  /** Unit letters read back as their units. */
  lemma UnitOfUnitChar(u: Unit)
    ensures UnitOf(UnitChar(u)) == Some(u)
  {
  }

  datatype Part = Part(amount: nat, unit: Unit)

  /** The seconds a list of parts stands for. */
  function Total(ps: seq<Part>): nat
  {
    if |ps| == 0 then 0 else ps[0].amount * UnitSeconds(ps[0].unit) + Total(ps[1..])
  }

  lemma TotalOfOne(p: Part)
    ensures Total([p]) == p.amount * UnitSeconds(p.unit)
  {
    assert [p][1..] == [];
  }

  lemma TotalOfTwo(p: Part, q: Part)
    ensures Total([p, q]) == p.amount * UnitSeconds(p.unit) + q.amount * UnitSeconds(q.unit)
  {
    assert [p, q][1..] == [q];
    TotalOfOne(q);
  }

  datatype Breakdown = Breakdown(days: nat, hours: nat, minutes: nat, seconds: nat)

  /** The three `divmod` steps. */
  function Decompose(t: nat): (b: Breakdown)
    ensures b.hours < 24 && b.minutes < 60 && b.seconds < 60
    ensures b.days * 86400 + b.hours * 3600 + b.minutes * 60 + b.seconds == t
  {
    var days := t / 86400;
    var rem := t % 86400;
    Breakdown(days, rem / 3600, rem % 3600 / 60, rem % 3600 % 60)
  }

  /** `parts` before truncation: the non-zero components, or the seconds when there are none. */
  function Parts(t: nat): (ps: seq<Part>)
    ensures 1 <= |ps| <= 3
  {
    var b := Decompose(t);
    var dhm := (if b.days > 0 then [Part(b.days, Days)] else [])
      + (if b.hours > 0 then [Part(b.hours, Hours)] else [])
      + (if b.minutes > 0 then [Part(b.minutes, Minutes)] else []);
    if |dhm| == 0 then [Part(b.seconds, Seconds)] else dhm
  }

  /** `parts[:2]`. */
  function Shown(t: nat): (ps: seq<Part>)
    ensures 1 <= |ps| <= 2
  {
    var ps := Parts(t);
    if |ps| <= 2 then ps else ps[..2]
  }

  function PartText(p: Part): string
  {
    NatToString(p.amount) + [UnitChar(p.unit)]
  }

  /** `" ".join(...)` of the parts' texts. */
  function Join(ps: seq<Part>): (s: string)
    requires |ps| > 0
    ensures |s| > 0 && IsDigit(s[0])
  {
    if |ps| == 1 then PartText(ps[0]) else PartText(ps[0]) + " " + Join(ps[1..])
  }

  /** The formatter once the seconds have been truncated to an integer. */
  function FormatSeconds(t: int): (s: string)
    ensures s == NotApplicable <==> t <= 0
  {
    if t <= 0 then NotApplicable else Join(Shown(t))
  }

  /** `format_timedelta(delta)`. */
  function FormatTimedelta(delta: Delta): (s: string)
    ensures s == NotApplicable <==> delta.Missing? || delta.Unreadable? || delta.seconds < 1.0
  {
    match delta
    case Missing => NotApplicable
    case Unreadable => NotApplicable
    case Span(x) => FormatSeconds(TruncateTowardZero(x))
  }

  /** Reads one `<digits><unit>` part off the front of `s`, returning it with the rest of `s`. */
  function ParsePart(s: string): (r: Option<(Part, string)>)
    ensures r.Some? ==> |r.value.1| < |s|
  {
    var k := DigitRun(s);
    if k == 0 || k == |s| then None
    else
      match UnitOf(s[k])
      case None => None
      case Some(u) => Some((Part(ValueOf(s[..k]), u), s[k + 1..]))
  }

  /** Reads `<digits><unit>` parts separated by single spaces. */
  function ParseParts(s: string): Option<seq<Part>>
    decreases |s|
  {
    match ParsePart(s)
    case None => None
    case Some((part, rest)) =>
      if |rest| == 0 then Some([part])
      else if rest[0] != ' ' then None
      else
        match ParseParts(rest[1..])
        case None => None
        case Some(more) => Some([part] + more)
  }

  /** A part's text reads back as that part, leaving whatever followed it. */
  lemma ParsePartText(p: Part, tail: string)
    ensures ParsePart(PartText(p) + tail) == Some((p, tail))
  {
    var digits := NatToString(p.amount);
    var c := UnitChar(p.unit);
    var s := PartText(p) + tail;
    assert s == digits + ([c] + tail);
    DigitRunOfDigitsThenStop(digits, [c] + tail);
    assert s[|digits|] == c;
    assert s[..|digits|] == digits;
    assert s[|digits| + 1..] == tail;
    ValueOfNatToString(p.amount);
    UnitOfUnitChar(p.unit);
  }

  /** One part and nothing after it reads as a one-part list. */
  lemma ParsePartsLast(s: string, p: Part)
    requires ParsePart(s) == Some((p, ""))
    ensures ParseParts(s) == Some([p])
  {
  }

  /** One part, a space, and a readable remainder read as that part in front of the remainder's parts. */
  lemma ParsePartsCons(s: string, p: Part, tail: string, more: seq<Part>)
    requires ParsePart(s) == Some((p, tail))
    requires |tail| > 0 && tail[0] == ' ' && ParseParts(tail[1..]) == Some(more)
    ensures ParseParts(s) == Some([p] + more)
  {
  }

  /** Joined parts read back as the same parts. */
  lemma {:induction false} ParseJoin(ps: seq<Part>)
    requires |ps| > 0
    ensures ParseParts(Join(ps)) == Some(ps)
  {
    var s := Join(ps);
    if |ps| == 1 {
      assert s == PartText(ps[0]) + "";
      ParsePartText(ps[0], "");
      ParsePartsLast(s, ps[0]);
      assert ps == [ps[0]];
    } else {
      var tail := " " + Join(ps[1..]);
      assert s == PartText(ps[0]) + tail;
      ParsePartText(ps[0], tail);
      assert tail[1..] == Join(ps[1..]);
      ParseJoin(ps[1..]);
      ParsePartsCons(s, ps[0], tail, ps[1..]);
      assert ps == [ps[0]] + ps[1..];
    }
  }

  /** A formatted positive duration reads back as exactly the parts it shows. */
  lemma FormatReadsBack(t: int)
    requires t > 0
    ensures ParseParts(FormatSeconds(t)) == Some(Shown(t))
  {
    ParseJoin(Shown(t));
  }

  /** The shown amount never exceeds the duration and falls short of it by less than an hour. */
  lemma ShownIsCloseBelow(t: nat)
    requires t > 0
    ensures Total(Shown(t)) <= t < Total(Shown(t)) + 3600
  {
    var b := Decompose(t);
    var ps := Parts(t);
    if b.days > 0 && b.hours > 0 {
      assert Shown(t) == [Part(b.days, Days), Part(b.hours, Hours)];
      TotalOfTwo(Part(b.days, Days), Part(b.hours, Hours));
    } else if b.days > 0 && b.minutes > 0 {
      assert Shown(t) == [Part(b.days, Days), Part(b.minutes, Minutes)];
      TotalOfTwo(Part(b.days, Days), Part(b.minutes, Minutes));
    } else if b.days > 0 {
      assert Shown(t) == [Part(b.days, Days)];
      TotalOfOne(Part(b.days, Days));
    } else if b.hours > 0 && b.minutes > 0 {
      assert Shown(t) == [Part(b.hours, Hours), Part(b.minutes, Minutes)];
      TotalOfTwo(Part(b.hours, Hours), Part(b.minutes, Minutes));
    } else if b.hours > 0 {
      assert Shown(t) == [Part(b.hours, Hours)];
      TotalOfOne(Part(b.hours, Hours));
    } else if b.minutes > 0 {
      assert Shown(t) == [Part(b.minutes, Minutes)];
      TotalOfOne(Part(b.minutes, Minutes));
    } else {
      assert Shown(t) == [Part(b.seconds, Seconds)];
      TotalOfOne(Part(b.seconds, Seconds));
    }
  }

  /** Seconds are shown exactly for durations under a minute, and then they are the whole duration. */
  lemma SecondsOnlyUnderAMinute(t: nat)
    requires t > 0
    ensures (exists i :: 0 <= i < |Shown(t)| && Shown(t)[i].unit == Seconds) <==> t < 60
    ensures t < 60 ==> Shown(t) == [Part(t, Seconds)]
  {
    var b := Decompose(t);
    if t < 60 {
      assert b.days == 0 && b.hours == 0 && b.minutes == 0;
      assert Shown(t)[0].unit == Seconds;
    } else {
      assert b.days > 0 || b.hours > 0 || b.minutes > 0;
      assert forall i :: 0 <= i < |Shown(t)| ==> Shown(t)[i].unit != Seconds;
    }
  }

  /** Shown parts are non-zero and strictly decreasing in unit size. */
  lemma ShownPartsAreOrdered(t: nat)
    requires t > 0
    ensures forall i :: 0 <= i < |Shown(t)| ==> Shown(t)[i].amount > 0
    ensures |Shown(t)| == 2 ==> UnitSeconds(Shown(t)[0].unit) > UnitSeconds(Shown(t)[1].unit)
  {
    var b := Decompose(t);
    if b.days == 0 && b.hours == 0 && b.minutes == 0 {
      assert b.seconds == t;
    }
  }
}
