/** The dashboard's event table: the DataFrame that the live feed, a user
    upload or an admin override provides, reduced to what the modelled code
    reads from it. */
module Events {
  import opened Common
  import opened Text

  /** One earthquake. `magnitude` is in hundredths of a magnitude unit
      (5.8 is 580); `time` is the feed's epoch milliseconds. */
  datatype Event = Event(time: int, magnitude: int, location: string, depth: real, lat: real, lon: real)

  /** The six columns of a well-formed table; an upload must carry all of them. */
  const RequiredColumns: set<string> := {"Magnitude", "Lat", "Lon", "Depth", "Time", "Location"}

  /** A DataFrame: its column names and its rows. Where a column is absent,
      the rows' field of that name carries no meaning. */
  datatype Table = Table(columns: set<string>, rows: seq<Event>)

  /** `pd.DataFrame()`: no columns, no rows. */
  const EmptyTable := Table({}, [])

  /** `df.empty`: a DataFrame is empty when either axis has length zero. */
  predicate IsEmpty(t: Table) {
    |t.rows| == 0 || t.columns == {}
  }

  /** `k` is where the largest magnitude is first attained. */
  ghost predicate IsFirstPeak(rows: seq<Event>, k: int) {
    && 0 <= k < |rows|
    && (forall j :: 0 <= j < |rows| ==> rows[j].magnitude <= rows[k].magnitude)
    && (forall j :: 0 <= j < k ==> rows[j].magnitude < rows[k].magnitude)
  }

  /** `Series.argmax()`: the position of the first maximum. */
  function ArgMax(rows: seq<Event>): (k: nat)
    requires |rows| > 0
    ensures IsFirstPeak(rows, k)
  {
    if |rows| == 1 then 0
    else
      var k' := ArgMax(rows[..|rows| - 1]);
      if rows[|rows| - 1].magnitude > rows[k'].magnitude then |rows| - 1 else k'
  }

  /** There is one first peak, so any position with that property is `ArgMax`'s. */
  lemma FirstPeakUnique(rows: seq<Event>, k: int)
    requires IsFirstPeak(rows, k)
    ensures k == ArgMax(rows)
  {
  }

  /** `df.iloc[df['Magnitude'].argmax()]`: the first row of largest
      magnitude, or the exception the lookup raises. */
  function PeakRow(t: Table): (r: Outcome<Event>)
    ensures "Magnitude" !in t.columns ==> r == Raised(MissingColumn("Magnitude"))
    ensures "Magnitude" in t.columns && |t.rows| == 0 ==> r == Raised(EmptyArgMax)
    ensures "Magnitude" in t.columns && |t.rows| > 0 ==> r.Ok?
    ensures r.Ok? ==> exists k :: IsFirstPeak(t.rows, k) && r.value == t.rows[k]
  {
    if "Magnitude" !in t.columns then Raised(MissingColumn("Magnitude"))
    else if |t.rows| == 0 then Raised(EmptyArgMax)
    else Ok(t.rows[ArgMax(t.rows)])
  }

  /** The decimals Python prints for a non-negative number of hundredths:
      one digit, or two when the second is not zero. */
  function Decimals(a: nat): string {
    [DigitChar(a / 10 % 10)] + (if a % 10 == 0 then "" else [DigitChar(a % 10)])
  }

  /** A non-negative number of hundredths as Python prints the float:
      580 is "5.8", 500 is "5.0", 273 is "2.73". */
  function UnsignedMag(a: nat): string {
    NatToString(a / 100) + "." + Decimals(a)
  }

  /** A magnitude as Python prints a float with at most two decimals:
      the text reads back as the same number of hundredths, it has a minus
      sign exactly when the value is negative, its integer part has no
      leading zero, and it ends in a zero only when that zero is its single
      decimal. */
  function ShowMag(m: int): (r: string)
    ensures ReadMag(r) == Some(m)
    ensures |r| >= 3 && (r[|r| - 1] == '0' ==> r[|r| - 2] == '.')
    ensures r[0] == '-' <==> m < 0
    ensures var u := if m < 0 then r[1..] else r; |u| >= 2 && (u[0] == '0' ==> u[1] == '.')
  {
    var a := if m < 0 then -m else m;
    UnsignedMagReadsBack(a);
    var u := UnsignedMag(a);
    if m < 0 then
      assert ("-" + u)[1..] == u;
      "-" + u
    else u
  }

  /** Reads text of the form `[-]D+.D` or `[-]D+.DD` back as hundredths. */
  function ReadMag(s: string): Option<int> {
    if s != [] && s[0] == '-' then
      match ReadUnsignedMag(s[1..])
      case None => None
      case Some(v) => var w: int := v; Some(-w)
    else ReadUnsignedMag(s)
  }

  function ReadUnsignedMag(s: string): Option<nat> {
    match IndexOf(s, '.')
    case None => None
    case Some(k) =>
      var ip, fp := s[..k], s[k + 1..];
      if ip == [] || (exists i :: 0 <= i < |ip| && !IsDigit(ip[i])) || !(|fp| == 1 || |fp| == 2)
         || (exists i :: 0 <= i < |fp| && !IsDigit(fp[i]))
      then None
      else Some(DigitsValue(ip) * 100 + (if |fp| == 1 then DigitsValue(fp) * 10 else DigitsValue(fp)))
  }

  /** The decimals are digits worth `a % 100` hundredths, ending in a zero
      only when that zero is the single decimal. */
  lemma DecimalsValue(a: nat)
    ensures var fp := Decimals(a);
      && (|fp| == 1 || |fp| == 2) && (forall i :: 0 <= i < |fp| ==> IsDigit(fp[i]))
      && (if |fp| == 1 then DigitsValue(fp) * 10 else DigitsValue(fp)) == a % 100
      && (fp[|fp| - 1] == '0' ==> |fp| == 1)
  {
    var fp := Decimals(a);
    assert fp[..0] == [];
    assert DigitsValue([DigitChar(a / 10 % 10)]) == a / 10 % 10;
    if a % 10 != 0 {
      assert fp[..1] == [DigitChar(a / 10 % 10)];
      assert DigitsValue(fp) == a / 10 % 10 * 10 + a % 10;
      assert a % 100 == a / 10 % 10 * 10 + a % 10;
    } else {
      assert a % 100 == a / 10 % 10 * 10;
    }
  }

  lemma UnsignedMagReadsBack(a: nat)
    ensures ReadUnsignedMag(UnsignedMag(a)) == Some(a)
    ensures var u := UnsignedMag(a); |u| >= 3 && IsDigit(u[0]) && (u[|u| - 1] == '0' ==> u[|u| - 2] == '.')
    ensures var u := UnsignedMag(a); u[0] == '0' ==> u[1] == '.'
  {
    var ip, fp := NatToString(a / 100), Decimals(a);
    var u := ip + "." + fp;
    IndexOfPointAfterDigits(ip, fp);
    assert u[..|ip|] == ip && u[|ip| + 1..] == fp;
    DecimalsValue(a);
    assert DigitsValue(ip) * 100 + a % 100 == a;
  }

  /** Magnitudes 3.1, 5.8, 5.8, 2.0 peak at 5.8, and the first of the two
      tied rows is the one chosen. */
  lemma PeakTieBreakExample(a: Event, b: Event, c: Event, d: Event)
    requires a.magnitude == 310 && b.magnitude == 580 && c.magnitude == 580 && d.magnitude == 200
    ensures ArgMax([a, b, c, d]) == 1
  {
    var rows := [a, b, c, d];
    assert IsFirstPeak(rows, 1);
    FirstPeakUnique(rows, 1);
  }
}
