/**
 * formatRemaining: a duration in ms rendered as "D일 H시간 M분", with the
 * day and hour parts dropped when they are leading zeros. The rendered
 * string is modelled as a sequence of (value, unit) parts joined by single
 * spaces, and a parser for that text shows that nothing is lost.
 */
module TimeFormat {
  import opened Wrappers

  datatype Unit = Days | Hours | Minutes

  datatype Part = Part(value: nat, unit: Unit)

  /** Whole days, hours and minutes of a number of seconds. */
  datatype Breakdown = Breakdown(days: nat, hours: nat, minutes: nat)

  /** The seconds a breakdown stands for. */
  function Seconds(b: Breakdown): nat
  {
    b.days * 86400 + b.hours * 3600 + b.minutes * 60
  }

  /** The minutes a breakdown stands for. */
  function BreakdownMinutes(b: Breakdown): nat
  {
    b.days * 1440 + b.hours * 60 + b.minutes
  }

  function Decompose(totalSeconds: nat): Breakdown
  {
    Breakdown(totalSeconds / 86400, (totalSeconds % 86400) / 3600, (totalSeconds % 3600) / 60)
  }

  /**
   * The breakdown is the canonical one: hours below 24, minutes below 60,
   * and it accounts for every second but the ones below a whole minute.
   */
  lemma DecomposeBounds(s: nat)
    ensures Decompose(s).hours < 24 && Decompose(s).minutes < 60
    ensures Seconds(Decompose(s)) <= s < Seconds(Decompose(s)) + 60
    ensures Seconds(Decompose(s)) == 60 * BreakdownMinutes(Decompose(s))
    ensures BreakdownMinutes(Decompose(s)) == s / 60
  {
    var d, r := s / 86400, s % 86400;
    var h, q := r / 3600, r % 3600;
    assert s == 86400 * d + r && r < 86400;
    assert r == 3600 * h + q && q < 3600 && h < 24;
    assert s == 3600 * (24 * d + h) + q;
    assert s % 3600 == q;
    var m, sec := q / 60, q % 60;
    assert q == 60 * m + sec && m < 60;
    assert s == 60 * (1440 * d + 60 * h + m) + sec;
    assert Decompose(s) == Breakdown(d, h, m);
  }

  /** Decompose inverts Seconds on canonical breakdowns. */
  lemma DecomposeRecompose(b: Breakdown, extra: nat)
    requires b.hours < 24 && b.minutes < 60 && extra < 60
    ensures Decompose(Seconds(b) + extra) == b
  {
    var s := Seconds(b) + extra;
    var r := b.hours * 3600 + b.minutes * 60 + extra;
    assert r < 86400;
    assert s == 86400 * b.days + r;
    assert s / 86400 == b.days && s % 86400 == r;
    var q := b.minutes * 60 + extra;
    assert q < 3600 && r == 3600 * b.hours + q;
    assert r / 3600 == b.hours;
    assert s == 3600 * (24 * b.days + b.hours) + q;
    assert s % 3600 == q;
    assert q / 60 == b.minutes;
  }

  /** The parts shown for a breakdown, largest unit first. */
  function SelectParts(b: Breakdown): seq<Part>
  {
    (if b.days > 0 then [Part(b.days, Days)] else [])
    + (if b.hours > 0 || b.days > 0 then [Part(b.hours, Hours)] else [])
    + [Part(b.minutes, Minutes)]
  }

  /** The parts shown for a positive duration in ms. */
  function Parts(ms: int): seq<Part>
    requires ms > 0
  {
    SelectParts(Decompose(ms / 1000))
  }

  function UnitRank(u: Unit): nat
  {
    match u
    case Days => 0
    case Hours => 1
    case Minutes => 2
  }

  function UnitMinutes(u: Unit): nat
  {
    match u
    case Days => 1440
    case Hours => 60
    case Minutes => 1
  }

  /** The field of a breakdown that a unit reads. */
  function FieldOf(b: Breakdown, u: Unit): nat
  {
    match u
    case Days => b.days
    case Hours => b.hours
    case Minutes => b.minutes
  }

  predicate HasUnit(ps: seq<Part>, u: Unit)
  {
    exists i :: 0 <= i < |ps| && ps[i].unit == u
  }

  /** The minutes a list of parts stands for. */
  function TotalMinutes(ps: seq<Part>): nat
  {
    if ps == [] then 0 else ps[0].value * UnitMinutes(ps[0].unit) + TotalMinutes(ps[1..])
  }

  /**
   * Part selection: days shown iff there are days, hours shown iff there
   * are hours or days, minutes always shown and last, units strictly
   * descending, each part carrying its breakdown field, and the parts
   * together standing for every minute of the breakdown.
   */
  lemma SelectPartsShape(b: Breakdown)
    ensures var ps := SelectParts(b);
      && 1 <= |ps| <= 3
      && ps[|ps| - 1] == Part(b.minutes, Minutes)
      && (HasUnit(ps, Days) <==> b.days > 0)
      && (HasUnit(ps, Hours) <==> b.hours > 0 || b.days > 0)
      && (forall i, j :: 0 <= i < j < |ps| ==> UnitRank(ps[i].unit) < UnitRank(ps[j].unit))
      && (forall i :: 0 <= i < |ps| ==> ps[i].value == FieldOf(b, ps[i].unit))
      && TotalMinutes(ps) == BreakdownMinutes(b)
  {
    var ps := SelectParts(b);
    var m := Part(b.minutes, Minutes);
    assert TotalMinutes([m]) == b.minutes;
    if b.days > 0 {
      var h := Part(b.hours, Hours);
      assert ps == [Part(b.days, Days), h, m];
      assert ps[0].unit == Days && ps[1].unit == Hours;
      assert [h, m][1..] == [m];
      assert TotalMinutes([h, m]) == b.hours * 60 + b.minutes;
      assert ps[1..] == [h, m];
    } else if b.hours > 0 {
      assert ps == [Part(b.hours, Hours), m];
      assert ps[0].unit == Hours;
      assert ps[1..] == [m];
    } else {
      assert ps == [m];
    }
  }

  /** The shown parts of a positive duration stand for its whole minutes. */
  lemma PartsMeaning(ms: int)
    requires ms > 0
    ensures TotalMinutes(Parts(ms)) == ms / 60000
    ensures forall i :: 0 <= i < |Parts(ms)| && Parts(ms)[i].unit == Hours ==> Parts(ms)[i].value < 24
    ensures forall i :: 0 <= i < |Parts(ms)| && Parts(ms)[i].unit == Minutes ==> Parts(ms)[i].value < 60
  {
    var s := ms / 1000;
    DecomposeBounds(s);
    SelectPartsShape(Decompose(s));
    WholeMinutesOfSeconds(ms);
  }

  // ---------------------------------------------------------------------
  // Text: decimal numerals, unit names, joining with spaces

  predicate IsDigit(c: char)
  {
    '0' <= c <= '9'
  }

  predicate AllDigits(s: string)
  {
    forall i :: 0 <= i < |s| ==> IsDigit(s[i])
  }

  function DigitChar(d: nat): (c: char)
    requires d < 10
    ensures IsDigit(c) && c as int - '0' as int == d
  {
    (('0' as int) + d) as char
  }

  /** The decimal numeral of `n`, as JavaScript writes a non-negative integer. */
  function NatToDecimal(n: nat): (s: string)
    ensures 1 <= |s| && AllDigits(s)
    ensures s[0] == '0' ==> n == 0
    decreases n
  {
    if n < 10 then [DigitChar(n)] else NatToDecimal(n / 10) + [DigitChar(n % 10)]
  }

  /** The value of a string of decimal digits. */
  function DecimalValue(s: string): nat
    requires AllDigits(s)
  {
    if s == [] then 0 else 10 * DecimalValue(s[..|s| - 1]) + (s[|s| - 1] as int - '0' as int)
  }

  lemma {:induction false} DecimalRoundTrip(n: nat)
    ensures DecimalValue(NatToDecimal(n)) == n
  {
    if n >= 10 {
      var s := NatToDecimal(n);
      assert s[..|s| - 1] == NatToDecimal(n / 10);
      DecimalRoundTrip(n / 10);
    }
  }

  function UnitName(u: Unit): string
  {
    match u
    case Days => "일"
    case Hours => "시간"
    case Minutes => "분"
  }

  function PartText(p: Part): string
  {
    NatToDecimal(p.value) + UnitName(p.unit)
  }

  function Words(ps: seq<Part>): (ws: seq<string>)
    ensures |ws| == |ps|
  {
    if ps == [] then [] else [PartText(ps[0])] + Words(ps[1..])
  }

  /** `ws.join(' ')` */
  function Join(ws: seq<string>): string
  {
    if ws == [] then "" else if |ws| == 1 then ws[0] else ws[0] + " " + Join(ws[1..])
  }

  /** formatRemaining(ms) */
  function FormatRemaining(ms: int): string
  {
    if ms <= 0 then "0분" else Join(Words(Parts(ms)))
  }

  // ---------------------------------------------------------------------
  // Reading the text back

  /** `s.split(' ')` */
  function Split(s: string): (ws: seq<string>)
    ensures |ws| >= 1
  {
    if s == [] then [""]
    else
      var rest := Split(s[1..]);
      if s[0] == ' ' then [""] + rest else [[s[0]] + rest[0]] + rest[1..]
  }

  /** Length of the run of digits at the front of `s`. */
  function DigitRun(s: string): (k: nat)
    ensures k <= |s| && AllDigits(s[..k])
  {
    if s == [] || !IsDigit(s[0]) then 0
    else
      var k := 1 + DigitRun(s[1..]);
      assert s[..k] == [s[0]] + s[1..][..k - 1];
      k
  }

  function UnitOfName(name: string): Option<Unit>
  {
    if name == "일" then Some(Days)
    else if name == "시간" then Some(Hours)
    else if name == "분" then Some(Minutes)
    else None
  }

  /** A word "<digits><unit>" read back as a part. */
  function ParseWord(w: string): Option<Part>
  {
    var k := DigitRun(w);
    if k == 0 then None
    else match UnitOfName(w[k..])
      case None => None
      case Some(u) => Some(Part(DecimalValue(w[..k]), u))
  }

  function ParseWords(ws: seq<string>): Option<seq<Part>>
  {
    if ws == [] then Some([])
    else match (ParseWord(ws[0]), ParseWords(ws[1..]))
      case (Some(p), Some(ps)) => Some([p] + ps)
      case _ => None
  }

  /** Reads the text of formatRemaining back into its parts. */
  function ParseRemaining(s: string): Option<seq<Part>>
  {
    ParseWords(Split(s))
  }

  lemma {:induction false} SplitNoSpace(w: string)
    requires ' ' !in w
    ensures Split(w) == [w]
  {
    if w != [] {
      SplitNoSpace(w[1..]);
      assert [w[0]] + w[1..] == w;
    }
  }

  lemma {:induction false} SplitAtSpace(w: string, t: string)
    requires ' ' !in w
    ensures Split(w + " " + t) == [w] + Split(t)
  {
    if w == [] {
      assert w + " " + t == [' '] + t;
      assert (w + " " + t)[1..] == t;
    } else {
      var s := w + " " + t;
      assert s[1..] == w[1..] + " " + t;
      SplitAtSpace(w[1..], t);
      assert [w[0]] + w[1..] == w;
    }
  }

  /** Splitting undoes joining when no word holds a space. */
  lemma {:induction false} SplitJoin(ws: seq<string>)
    requires |ws| >= 1
    requires forall i :: 0 <= i < |ws| ==> ' ' !in ws[i]
    ensures Split(Join(ws)) == ws
  {
    if |ws| == 1 {
      SplitNoSpace(ws[0]);
    } else {
      SplitAtSpace(ws[0], Join(ws[1..]));
      SplitJoin(ws[1..]);
    }
  }

  lemma {:induction false} DigitRunOf(ds: string, t: string)
    requires AllDigits(ds)
    requires t == [] || !IsDigit(t[0])
    ensures DigitRun(ds + t) == |ds|
  {
    if ds != [] {
      assert (ds + t)[1..] == ds[1..] + t;
      DigitRunOf(ds[1..], t);
    } else {
      assert ds + t == t;
    }
  }

  lemma PartTextNoSpace(p: Part)
    ensures ' ' !in PartText(p)
  {
  }

  lemma {:induction false} ParseWordRoundTrip(p: Part)
    ensures ParseWord(PartText(p)) == Some(p)
  {
    var n := NatToDecimal(p.value);
    var w := PartText(p);
    DigitRunOf(n, UnitName(p.unit));
    assert w[..|n|] == n && w[|n|..] == UnitName(p.unit);
    DecimalRoundTrip(p.value);
  }

  lemma {:induction false} ParseWordsRoundTrip(ps: seq<Part>)
    ensures ParseWords(Words(ps)) == Some(ps)
  {
    if ps != [] {
      ParseWordRoundTrip(ps[0]);
      assert Words(ps)[1..] == Words(ps[1..]);
      ParseWordsRoundTrip(ps[1..]);
      assert [ps[0]] + ps[1..] == ps;
    }
  }

  /** The text of a positive duration reads back as exactly its parts. */
  lemma FormatRoundTrip(ms: int)
    requires ms > 0
    ensures ParseRemaining(FormatRemaining(ms)) == Some(Parts(ms))
  {
    var ws := Words(Parts(ms));
    SelectPartsShape(Decompose(ms / 1000));
    forall i | 0 <= i < |ws|
      ensures ' ' !in ws[i]
    {
      WordsAt(Parts(ms), i);
      PartTextNoSpace(Parts(ms)[i]);
    }
    SplitJoin(ws);
    ParseWordsRoundTrip(Parts(ms));
  }

  lemma {:induction false} WordsAt(ps: seq<Part>, i: nat)
    requires i < |ps|
    ensures Words(ps)[i] == PartText(ps[i])
  {
    if i > 0 {
      WordsAt(ps[1..], i - 1);
    }
  }

  /** Two positive durations with the same text have the same whole minutes. */
  lemma SameTextSameMinutes(a: int, b: int)
    requires a > 0 && b > 0
    requires FormatRemaining(a) == FormatRemaining(b)
    ensures a / 60000 == b / 60000
  {
    FormatRoundTrip(a);
    FormatRoundTrip(b);
    PartsMeaning(a);
    PartsMeaning(b);
  }

  /** Two positive durations with the same whole minutes have the same text. */
  lemma SameMinutesSameText(a: int, b: int)
    requires a > 0 && b > 0
    requires a / 60000 == b / 60000
    ensures FormatRemaining(a) == FormatRemaining(b)
  {
    WholeMinutesOfSeconds(a);
    WholeMinutesOfSeconds(b);
    var da, db := Decompose(a / 1000), Decompose(b / 1000);
    DecomposeBounds(a / 1000);
    DecomposeBounds(b / 1000);
    var m := a / 60000;
    assert BreakdownMinutes(da) == m && BreakdownMinutes(db) == m;
    CanonicalMinutesDetermine(da, db);
  }

  /** Whole seconds of a duration, divided into minutes, are its whole minutes. */
  lemma WholeMinutesOfSeconds(ms: int)
    requires ms > 0
    ensures (ms / 1000) / 60 == ms / 60000
  {
    var s := ms / 1000;
    var r, q := ms % 1000, s % 60;
    assert ms == 1000 * s + r && s == 60 * (s / 60) + q;
    assert ms == 60000 * (s / 60) + (1000 * q + r);
    assert 1000 * q + r < 60000;
  }

  /** A canonical breakdown is determined by the minutes it stands for. */
  lemma CanonicalMinutesDetermine(x: Breakdown, y: Breakdown)
    requires x.hours < 24 && x.minutes < 60 && y.hours < 24 && y.minutes < 60
    requires BreakdownMinutes(x) == BreakdownMinutes(y)
    ensures x == y
  {
    var m := BreakdownMinutes(x);
    var rx := x.hours * 60 + x.minutes;
    var ry := y.hours * 60 + y.minutes;
    assert rx < 1440 && ry < 1440;
    assert m == 1440 * x.days + rx && m == 1440 * y.days + ry;
    assert x.days == m / 1440 && y.days == m / 1440;
    assert rx == ry;
    assert x.hours == rx / 60 && y.hours == ry / 60;
  }

  /** A non-positive duration is rendered as the zero label. */
  lemma NonPositiveIsZero(ms: int)
    requires ms <= 0
    ensures FormatRemaining(ms) == "0분"
  {
  }

  /** Anything under a minute is rendered as the zero label, too. */
  lemma UnderAMinuteIsZero(ms: int)
    requires ms < 60000
    ensures FormatRemaining(ms) == "0분"
  {
    if ms > 0 {
      var b := Decompose(ms / 1000);
      assert b == Breakdown(0, 0, 0);
      assert Parts(ms) == [Part(0, Minutes)];
      assert NatToDecimal(0) == "0";
    }
  }

  /** 25 hours: "1일 1시간 0분". */
  lemma TwentyFiveHours()
    ensures FormatRemaining(90_000_000) == "1일 1시간 0분"
  {
    assert Decompose(90_000) == Breakdown(1, 1, 0);
    assert Parts(90_000_000) == [Part(1, Days), Part(1, Hours), Part(0, Minutes)];
    assert NatToDecimal(1) == "1" && NatToDecimal(0) == "0";
  }
}
