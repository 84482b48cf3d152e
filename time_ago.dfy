/**
 * getTimeAgo in server.js: the age of a timestamp as "N seconds ago",
 * "N minutes ago", "N hours ago" or "N days ago". The clock reading is
 * the parameter nowMs.
 */
module TimeAgo {
  import opened Wrappers
  import opened Text

  datatype Unit = Seconds | Minutes | Hours | Days

  /** The length of one unit, in seconds. */
  function UnitLength(u: Unit): nat {
    match u
    case Seconds => 1
    case Minutes => 60
    case Hours => 3600
    case Days => 86400
  }

  function UnitSuffix(u: Unit): string {
    match u
    case Seconds => " seconds ago"
    case Minutes => " minutes ago"
    case Hours => " hours ago"
    case Days => " days ago"
  }

  /** An age as the source reports it: a count of whole units. */
  datatype Ago = Ago(count: int, unit: Unit)

  /**
   * Whole seconds from thenMs to nowMs, rounded down as Math.floor does
   * (Dafny's division by a positive divisor rounds down too).
   */
  function ElapsedSeconds(nowMs: int, thenMs: int): int {
    (nowMs - thenMs) / 1000
  }

  /**
   * The unit and count getTimeAgo chooses for an age of s seconds: plain
   * seconds below one minute (a negative age included), otherwise the
   * largest of minutes, hours and days below which s lies, counted in whole
   * units rounded down.
   */
  function Bucket(s: int): (a: Ago)
    ensures a.unit == Seconds <==> s < 60
    ensures a.unit == Minutes <==> 60 <= s < 3600
    ensures a.unit == Hours <==> 3600 <= s < 86400
    ensures a.unit == Days <==> 86400 <= s
    ensures a.unit == Seconds ==> a.count == s
    ensures a.unit == Minutes ==> 1 <= a.count < 60 && 60 * a.count <= s < 60 * a.count + 60
    ensures a.unit == Hours ==> 1 <= a.count < 24 && 3600 * a.count <= s < 3600 * a.count + 3600
    ensures a.unit == Days ==> 1 <= a.count && 86400 * a.count <= s < 86400 * a.count + 86400
  {
    if s < 60 then Ago(s, Seconds)
    else if s < 3600 then Ago(s / 60, Minutes)
    else if s < 86400 then Ago(s / 3600, Hours)
    else Ago(s / 86400, Days)
  }

  function Render(a: Ago): string {
    IntToString(a.count) + UnitSuffix(a.unit)
  }

  /**
   * getTimeAgo(new Date(thenMs)) evaluated at the instant nowMs. What it
   * reports is recovered from its text: the bucket of the elapsed seconds.
   */
  function TimeAgo(nowMs: int, thenMs: int): (r: string)
    ensures ParseAgo(r) == Some(Bucket(ElapsedSeconds(nowMs, thenMs)))
  {
    RenderRoundTrip(Bucket(ElapsedSeconds(nowMs, thenMs)));
    Render(Bucket(ElapsedSeconds(nowMs, thenMs)))
  }

  // ------------------------------------------------ reading the text back

  /** The index of the first space in s, or |s| when there is none. */
  function FirstSpace(s: string): (k: nat)
    ensures k <= |s|
  {
    if s == [] || s[0] == ' ' then 0 else 1 + FirstSpace(s[1..])
  }

  lemma {:induction false} FirstSpaceAfter(x: string, y: string)
    requires ' ' !in x
    requires y != [] && y[0] == ' '
    ensures FirstSpace(x + y) == |x|
  {
    if x == [] {
      assert x + y == y;
    } else {
      assert (x + y)[0] == x[0];
      assert (x + y)[1..] == x[1..] + y;
      assert forall c :: c in x[1..] ==> c in x;
      FirstSpaceAfter(x[1..], y);
    }
  }

  function SuffixUnit(t: string): Option<Unit> {
    if t == " seconds ago" then Some(Seconds)
    else if t == " minutes ago" then Some(Minutes)
    else if t == " hours ago" then Some(Hours)
    else if t == " days ago" then Some(Days)
    else None
  }

  /** Splits a relative time into its count and its unit. */
  function ParseAgo(r: string): Option<Ago> {
    var k := FirstSpace(r);
    match (ParseInt(r[..k]), SuffixUnit(r[k..]))
    case (Some(n), Some(u)) => Some(Ago(n, u))
    case _ => None
  }

  /** The text getTimeAgo produces determines the count and the unit it chose. */
  lemma RenderRoundTrip(a: Ago)
    ensures ParseAgo(Render(a)) == Some(a)
  {
    var digits := IntToString(a.count);
    var suffix := UnitSuffix(a.unit);
    IntToStringRoundTrip(a.count);
    FirstSpaceAfter(digits, suffix);
    var r := Render(a);
    assert r[..|digits|] == digits;
    assert r[|digits|..] == suffix;
    match a.unit
    case Seconds =>
    case Minutes => assert suffix[1] != " seconds ago"[1];
    case Hours => assert |suffix| != |" seconds ago"| && |suffix| != |" minutes ago"|;
    case Days => assert |suffix| != |" seconds ago"| && |suffix| != |" minutes ago"| && |suffix| != |" hours ago"|;
  }
}
