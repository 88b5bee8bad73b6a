/**
  The rate on a charge's ledger text. The meter writes the GPU count and the
  hourly rate into the text of every charge; statements read them back with two
  patterns. Decimal digits are the ASCII ones, and a rate is an exact decimal.
 */
module RateText {
  import opened Common
  import Metering

  // --- Digits ------------------------------------------------------------------

  predicate IsDigit(c: char) { '0' <= c <= '9' }

  predicate AllDigits(s: string) { forall i :: 0 <= i < |s| ==> IsDigit(s[i]) }

  predicate Digits(s: string) { s != "" && AllDigits(s) }

  function DigitOf(n: nat): (c: char)
    requires n < 10
    ensures IsDigit(c)
  {
    '0' + n as char
  }

  /** A number as it is printed. */
  function Decimal(n: nat): (s: string)
    ensures Digits(s)
  {
    if n < 10 then [DigitOf(n)] else Decimal(n / 10) + [DigitOf(n % 10)]
  }

  /** A number as it is read. */
  function Value(s: string): nat
    requires AllDigits(s)
  {
    if s == "" then 0
    else 10 * Value(s[..|s| - 1]) + (s[|s| - 1] as int - '0' as int)
  }

  lemma {:induction false} DecimalReadsBack(n: nat)
    ensures Value(Decimal(n)) == n
  {
    if n >= 10 {
      DecimalReadsBack(n / 10);
      var s := Decimal(n);
      assert s[..|s| - 1] == Decimal(n / 10);
    } else {
      var s := Decimal(n);
      assert s[..0] == "";
    }
  }

  // --- What the meter writes -------------------------------------------------------

  /** Cents in dollars, always with two decimals. */
  function CentPart(cents: nat): (s: string)
    requires cents < 100
    ensures Digits(s) && |s| == 2
  {
    [DigitOf(cents / 10), DigitOf(cents % 10)]
  }

  function Dollars(cents: nat): string {
    "$" + Decimal(cents / 100) + "." + CentPart(cents % 100)
  }

  function RentalText(gpus: nat, cents: nat): string {
    "GPU usage " + Decimal(gpus) + "\U{00D7} GPU @ " + Dollars(cents) + "/hr"
  }

  /** The names a workload may be shown under; an empty one counts as missing. */
  datatype Workload = Workload(displayName: string, modelId: string, name: string)

  /** What follows the last slash. */
  function LastSegment(id: string): (s: string)
    ensures '/' !in s
    ensures s == id || (|s| < |id| && id[|id| - |s| - 1] == '/' && id[|id| - |s|..] == s)
  {
    if '/' !in id then id else LastSegment(id[1..])
  }

  function ShownName(workload: Option<Workload>): (name: string)
    ensures name != ""
  {
    match workload
    case None => "deployment"
    case Some(w) =>
      if w.displayName != "" then w.displayName
      else if LastSegment(w.modelId) != "" then LastSegment(w.modelId)
      else if w.name != "" then w.name
      else "deployment"
  }

  function ModelText(workload: Option<Workload>, gpus: nat, cents: nat): string {
    "Private model " + ShownName(workload) + " \U{00B7} " + ModelTail(gpus, cents)
  }

  function ModelTail(gpus: nat, cents: nat): string {
    Decimal(gpus) + Gpus(gpus) + " at " + Dollars(cents) + "/hr" + Each(gpus)
  }

  function Gpus(gpus: nat): string {
    if gpus == 1 then " GPU" else " GPUs"
  }

  function Each(gpus: nat): string {
    if gpus == 1 then "" else " each"
  }

  /** How a private model is charged, in words. */
  lemma ModelTailIs(gpus: nat, cents: nat)
    ensures gpus == 1 ==> ModelTail(gpus, cents) == "1 GPU at " + Dollars(cents) + "/hr"
    ensures gpus != 1 ==> ModelTail(gpus, cents) == Decimal(gpus) + " GPUs at " + Dollars(cents) + "/hr each"
  {
    assert gpus == 1 ==> Decimal(gpus) == "1";
    assert "1" + " GPU" + " at " == "1 GPU at " && "/hr" + " each" == "/hr each";
    assert gpus != 1 ==> Decimal(gpus) + " GPUs" + " at " == Decimal(gpus) + " GPUs at ";
    var front := Decimal(gpus) + Gpus(gpus) + " at " + Dollars(cents);
    assert front + "/hr" + " each" == front + ("/hr" + " each") && front + "/hr" + "" == front + "/hr";
  }

  /** Which name it goes by: the one given for show, else the last part of the model's id,
      else the workload's own, and "deployment" without any. */
  lemma {:induction false} ShownNameIs(display: string, owner: string, model: string, name: string)
    requires '/' !in model
    ensures LastSegment(owner + "/" + model) == model && LastSegment(model) == model
    ensures display != "" ==> ShownName(Some(Workload(display, owner + "/" + model, name))) == display
    ensures model != "" ==> ShownName(Some(Workload("", owner + "/" + model, name))) == model
    ensures name != "" ==> ShownName(Some(Workload("", owner + "/", name))) == name
    ensures ShownName(Some(Workload("", owner + "/", ""))) == ShownName(None) == "deployment"
  {
    SegmentIs(owner, model);
    SegmentIs(owner, "");
    assert owner + "/" + "" == owner + "/";
  }

  lemma {:induction false} SegmentIs(owner: string, model: string)
    requires '/' !in model
    ensures LastSegment(owner + "/" + model) == model && LastSegment(model) == model
  {
    var id := owner + "/" + model;
    assert id[|owner|] == '/';
    if owner == "" {
      assert id[1..] == model;
    } else {
      assert id[1..] == owner[1..] + "/" + model;
      SegmentIs(owner[1..], model);
    }
  }

  // --- The two patterns, as languages ---------------------------------------------

  datatype Pattern = RentalRate | ModelRate

  predicate IsMiddle(k: Pattern, m: string) {
    match k
    case RentalRate => m == "\U{00D7} GPU @ $"
    case ModelRate => m == " GPU at $" || m == " GPUs at $"
  }

  function AmountText(whole: string, frac: string): string {
    if frac == "" then whole else whole + "." + frac
  }

  /** `t` is count, middle, amount and "/hr", and nothing else. */
  predicate IsRateText(k: Pattern, t: string, count: string, m: string, whole: string, frac: string) {
    && Digits(count) && IsMiddle(k, m) && Digits(whole) && AllDigits(frac)
    && t == count + m + AmountText(whole, frac) + "/hr"
  }

  /** The amount in cents, rounded. */
  function Cents(whole: string, frac: string): int
    requires AllDigits(whole) && AllDigits(frac)
  {
    Metering.Round(Value(whole + frac) as real / Pow10(|frac|) as real * 100.0)
  }

  function Worth(count: string, whole: string, frac: string): int
    requires AllDigits(count) && AllDigits(whole) && AllDigits(frac)
  {
    Value(count) * Cents(whole, frac)
  }

  ghost predicate RateTextWorth(k: Pattern, t: string, v: int) {
    exists count, m, whole, frac ::
      IsRateText(k, t, count, m, whole, frac) && v == Worth(count, whole, frac)
  }

  // --- The two patterns, as a search ------------------------------------------------

  /** Length of the longest run of digits at the front. */
  function Run(s: string): (n: nat)
    ensures n <= |s| && AllDigits(s[..n])
    ensures n < |s| ==> !IsDigit(s[n])
  {
    if s == "" || !IsDigit(s[0]) then 0 else 1 + Run(s[1..])
  }

  predicate StartsWith(s: string, p: string) { |p| <= |s| && s[..|p|] == p }

  /** Length of the pattern's middle at the front; 0 when it is not there. */
  function Middle(k: Pattern, s: string): (n: nat)
    ensures n <= |s| && (n > 0 ==> IsMiddle(k, s[..n]))
  {
    match k
    case RentalRate => if StartsWith(s, "\U{00D7} GPU @ $") then 9 else 0
    case ModelRate =>
      if StartsWith(s, " GPUs at $") then 10
      else if StartsWith(s, " GPU at $") then 9 else 0
  }

  datatype Amount = Amount(whole: string, frac: string, rest: string)

  /** Digits, and a point with more digits when it is there. */
  function ReadAmount(s: string): (a: Option<Amount>)
    ensures a.Some? ==> Digits(a.value.whole) && AllDigits(a.value.frac)
    ensures a.Some? ==> s == AmountText(a.value.whole, a.value.frac) + a.value.rest
  {
    var b := Run(s);
    var u := s[b..];
    if b == 0 then None
    else if u != "" && u[0] == '.' && Run(u[1..]) > 0 then
      var f := Run(u[1..]);
      assert u == "." + u[1..][..f] + u[1..][f..];
      Some(Amount(s[..b], u[1..][..f], u[1..][f..]))
    else Some(Amount(s[..b], "", u))
  }

  /** Match the pattern at the front of `s`. */
  function At(k: Pattern, s: string): Option<int> {
    var n := Run(s);
    var m := Middle(k, s[n..]);
    if n == 0 || m == 0 then None else
      var a := ReadAmount(s[n..][m..]);
      if a.None? || !StartsWith(a.value.rest, "/hr") then None
      else Some(Worth(s[..n], a.value.whole, a.value.frac))
  }

  /** Match the pattern at the leftmost place it fits. */
  function Search(k: Pattern, s: string): Option<int> {
    if At(k, s).Some? then At(k, s)
    else if s == "" then None
    else Search(k, s[1..])
  }

  function OrElse(a: Option<int>, b: Option<int>): Option<int> {
    if a.Some? then a else b
  }

  function CentsPerHour(text: string): Option<int> {
    OrElse(Search(RentalRate, text), Search(ModelRate, text))
  }

  // --- The search finds exactly the pattern's language --------------------------------

  lemma RunOf(d: string, rest: string)
    requires AllDigits(d)
    requires rest != "" ==> !IsDigit(rest[0])
    ensures Run(d + rest) == |d|
  {
    assert rest != "" ==> (d + rest)[|d|] == rest[0];
  }

  lemma MiddleOf(k: Pattern, m: string, rest: string)
    requires IsMiddle(k, m)
    ensures Middle(k, m + rest) == |m|
  {
    var s := m + rest;
    assert s[..|m|] == m;
    assert m == " GPU at $" ==> s[4] == ' ';
    assert StartsWith(s, " GPUs at $") ==> s[4] == s[..10][4];
  }

  lemma MiddleLooks(k: Pattern, m: string)
    requires IsMiddle(k, m)
    ensures m != "" && !IsDigit(m[0]) && '\U{00B7}' !in m
    ensures k == RentalRate ==> m[0] == '\U{00D7}'
  {
  }

  lemma Regroup(a: string, b: string, c: string, d: string, e: string)
    ensures a + b + c + d + e == a + (b + (c + (d + e)))
  {
  }

  lemma WholeAmountOf(whole: string, rest: string)
    requires Digits(whole) && StartsWith(rest, "/hr")
    ensures ReadAmount(whole + rest) == Some(Amount(whole, "", rest))
  {
    assert rest[0] == rest[..3][0] == '/';
    hide StartsWith, Run;
    var s := whole + rest;
    RunOf(whole, rest);
    assert s[|whole|..] == rest && s[..|whole|] == whole;
  }

  lemma PointAmountOf(whole: string, frac: string, rest: string)
    requires Digits(whole) && Digits(frac) && StartsWith(rest, "/hr")
    ensures ReadAmount(whole + ("." + (frac + rest))) == Some(Amount(whole, frac, rest))
  {
    assert rest[0] == rest[..3][0] == '/';
    hide StartsWith, Run;
    var v := frac + rest;
    var u := "." + v;
    var s := whole + u;
    RunOf(whole, u);
    assert s[|whole|..] == u && s[..|whole|] == whole;
    assert u[1..] == v;
    RunOf(frac, rest);
    assert v[..|frac|] == frac && v[|frac|..] == rest;
  }

  lemma AmountOf(whole: string, frac: string, rest: string)
    requires Digits(whole) && AllDigits(frac)
    requires StartsWith(rest, "/hr")
    ensures ReadAmount(AmountText(whole, frac) + rest) == Some(Amount(whole, frac, rest))
  {
    assert frac != "" ==> Digits(frac);
    hide ReadAmount, Digits, StartsWith;
    if frac == "" {
      WholeAmountOf(whole, rest);
    } else {
      PointAmountOf(whole, frac, rest);
      assert whole + "." + frac + rest == whole + ("." + (frac + rest));
    }
  }

  lemma MatchFound(k: Pattern, t: string, count: string, m: string, whole: string, frac: string, rest: string)
    requires IsRateText(k, t, count, m, whole, frac)
    ensures At(k, t + rest) == Some(Worth(count, whole, frac))
  {
    hide Worth, Middle, ReadAmount, Run, IsMiddle;
    var tail := "/hr" + rest;
    var amount := AmountText(whole, frac) + tail;
    var s := t + rest;
    hide AmountText;
    Regroup(count, m, AmountText(whole, frac), "/hr", rest);
    MiddleLooks(k, m);
    RunOf(count, m + amount);
    assert s[|count|..] == m + amount && s[..|count|] == count;
    MiddleOf(k, m, amount);
    assert (m + amount)[|m|..] == amount;
    assert tail[..3] == "/hr";
    AmountOf(whole, frac, tail);
  }

  lemma FoundMatches(k: Pattern, s: string) returns (p: nat)
    ensures At(k, s).Some? ==> p <= |s| && RateTextWorth(k, s[..p], At(k, s).value)
  {
    hide Worth, Middle, ReadAmount, Run, IsMiddle, AmountText;
    p := 0;
    if At(k, s).Some? {
      var n := Run(s);
      var m := Middle(k, s[n..]);
      var a := ReadAmount(s[n..][m..]).value;
      var count, middle := s[..n], s[n..][..m];
      var t := count + middle + AmountText(a.whole, a.frac) + "/hr";
      var rest := a.rest[3..];
      assert a.rest == "/hr" + rest;
      assert s == count + s[n..];
      assert s[n..] == middle + s[n..][m..];
      Regroup(count, middle, AmountText(a.whole, a.frac), "/hr", rest);
      assert s == t + rest;
      p := |t|;
      assert s[..p] == t;
      assert IsRateText(k, t, count, middle, a.whole, a.frac);
    }
  }

  /** Matching at the front says `v` exactly when some front part of the text is
      in the pattern's language and worth `v`. */
  lemma AtIs(k: Pattern, s: string, v: int)
    ensures At(k, s) == Some(v) <==> exists p: nat :: p <= |s| && RateTextWorth(k, s[..p], v)
  {
    hide At, RateTextWorth;
    if At(k, s) == Some(v) {
      var p := FoundMatches(k, s);
    }
    forall p: nat | p <= |s| && RateTextWorth(k, s[..p], v) ensures At(k, s) == Some(v) {
      PrefixFound(k, s[..p], v, s[p..]);
      assert s[..p] + s[p..] == s;
    }
  }

  lemma PrefixFound(k: Pattern, t: string, v: int, rest: string)
    ensures RateTextWorth(k, t, v) ==> At(k, t + rest) == Some(v)
  {
    hide At, Worth;
    if count, m, whole, frac :| IsRateText(k, t, count, m, whole, frac) && v == Worth(count, whole, frac) {
      hide IsRateText;
      MatchFound(k, t, count, m, whole, frac, rest);
    }
  }

  ghost predicate FirstAt(k: Pattern, s: string, v: int, i: nat) {
    i <= |s| && At(k, s[i..]) == Some(v) && forall j :: 0 <= j < i ==> At(k, s[j..]).None?
  }

  /** The search takes the leftmost place where the pattern matches. */
  lemma {:induction false} SearchIs(k: Pattern, s: string, v: int)
    ensures Search(k, s) == Some(v) <==> exists i: nat :: FirstAt(k, s, v, i)
  {
    hide At;
    assert s[0..] == s;
    if At(k, s).Some? {
      assert FirstAt(k, s, At(k, s).value, 0);
    } else if s != "" {
      SearchIs(k, s[1..], v);
      assert forall j :: 0 <= j < |s| ==> s[1..][j..] == s[j + 1..];
      if i: nat :| FirstAt(k, s[1..], v, i) {
        forall j | 0 <= j < i + 1 ensures At(k, s[j..]).None? {
          assert j > 0 ==> At(k, s[1..][j - 1..]).None?;
        }
        assert FirstAt(k, s, v, i + 1);
      }
      if i: nat :| FirstAt(k, s, v, i) {
        assert FirstAt(k, s[1..], v, i - 1);
      }
    }
  }

  // --- Texts around a rate ----------------------------------------------------------

  /** A rate text ends in "r", has its own sign in it, and never the dot that
      follows a model's name. */
  lemma RateTextLooks(k: Pattern, t: string, v: int)
    ensures RateTextWorth(k, t, v) ==>
              && |t| > 0 && t[|t| - 1] == 'r' && '\U{00B7}' !in t
              && (k == RentalRate ==> '\U{00D7}' in t)
  {
    hide Worth;
    if count, m, whole, frac :| IsRateText(k, t, count, m, whole, frac) && v == Worth(count, whole, frac) {
      hide IsMiddle;
      MiddleLooks(k, m);
      AmountLooks(whole, frac, '\U{00B7}');
      hide AmountText;
      NowhereIn('\U{00B7}', count, m, AmountText(whole, frac), "/hr");
      assert t[|count|] == m[0];
      assert t[|t| - 1] == "/hr"[2];
    }
  }

  lemma AmountLooks(whole: string, frac: string, c: char)
    requires AllDigits(whole) && AllDigits(frac)
    requires !IsDigit(c) && c != '.'
    ensures c !in AmountText(whole, frac)
  {
  }

  lemma NowhereIn(c: char, s1: string, s2: string, s3: string, s4: string)
    requires c !in s1 && c !in s2 && c !in s3 && c !in s4
    ensures c !in s1 + s2 + s3 + s4
  {
  }

  lemma {:induction false} SkipPlain(k: Pattern, plain: string, s: string)
    requires forall i :: 0 <= i < |plain| ==> !IsDigit(plain[i])
    ensures Search(k, plain + s) == Search(k, s)
  {
    if plain == "" {
      assert plain + s == s;
    } else {
      var t := plain + s;
      assert t[0] == plain[0];
      assert Run(t) == 0;
      assert t[1..] == plain[1..] + s;
      SkipPlain(k, plain[1..], s);
    }
  }

  lemma {:induction false} NoSignNoRental(s: string)
    requires '\U{00D7}' !in s
    ensures Search(RentalRate, s) == None
  {
    hide At;
    if At(RentalRate, s).Some? {
      var p := FoundMatches(RentalRate, s);
      RateTextLooks(RentalRate, s[..p], At(RentalRate, s).value);
      assert false;
    }
    if s != "" {
      NoSignNoRental(s[1..]);
    }
  }

  /** What stands behind " · " has no part in a match that begins before it. */
  lemma DotEndsMatch(k: Pattern, s: string, rest: string)
    ensures At(k, s + " \U{00B7} " + rest) == At(k, s)
  {
    hide At, RateTextWorth;
    var t := s + " \U{00B7} " + rest;
    if At(k, s).Some? {
      var p := FoundMatches(k, s);
      assert t[..p] == s[..p];
      AtIs(k, t, At(k, s).value);
    } else if At(k, t).Some? {
      var v := At(k, t).value;
      var p := FoundMatches(k, t);
      RateTextLooks(k, t[..p], v);
      assert t[|s|] == ' ' && t[|s| + 1] == '\U{00B7}';
      if p > |s| + 1 {
        assert false;
      }
      assert t[..p][p - 1] == t[p - 1];
      assert s[..p] == t[..p];
      AtIs(k, s, v);
    }
  }

  lemma {:induction false} SearchBeforeDot(k: Pattern, s: string, rest: string)
    ensures Search(k, s + " \U{00B7} " + rest) == OrElse(Search(k, s), Search(k, rest))
  {
    hide At;
    var t := s + " \U{00B7} " + rest;
    DotEndsMatch(k, s, rest);
    if s == "" {
      assert t == " \U{00B7} " + rest;
      SkipPlain(k, " \U{00B7} ", rest);
    } else if At(k, s).None? {
      assert t[1..] == s[1..] + " \U{00B7} " + rest;
      SearchBeforeDot(k, s[1..], rest);
    }
  }

  // --- Round trips --------------------------------------------------------------------

  lemma DollarsReadBack(gpus: nat, cents: nat)
    ensures Worth(Decimal(gpus), Decimal(cents / 100), CentPart(cents % 100)) == gpus * cents
  {
    DecimalReadsBack(gpus);
    CentsReadBack(cents);
  }

  lemma CentsReadBack(cents: nat)
    ensures Cents(Decimal(cents / 100), CentPart(cents % 100)) == cents
  {
    hide Decimal, Value, Pow10;
    var whole, frac := Decimal(cents / 100), CentPart(cents % 100);
    DecimalReadsBack(cents / 100);
    TwoMoreDigits(whole, cents % 100);
    assert Pow10(2) == 100 by { Hundred(); }
    hide CentPart;
    assert cents as real / 100.0 * 100.0 == cents as real;
  }

  lemma Hundred()
    ensures Pow10(2) == 100
  {
    assert Pow10(1) == 10;
  }

  lemma TwoMoreDigits(whole: string, cents: nat)
    requires AllDigits(whole) && cents < 100
    ensures Value(whole + CentPart(cents)) == 100 * Value(whole) + cents
  {
    var one, two := whole + [DigitOf(cents / 10)], whole + CentPart(cents);
    assert two[..|two| - 1] == one && two[|two| - 1] == DigitOf(cents % 10);
    assert one[..|one| - 1] == whole && one[|one| - 1] == DigitOf(cents / 10);
    assert Value(one) == 10 * Value(whole) + cents / 10;
    assert Value(two) == 10 * Value(one) + cents % 10;
  }

  /** The rate read from a rental's charge text is the rate that was charged. */
  lemma RentalRoundTrip(gpus: nat, cents: nat)
    ensures CentsPerHour(RentalText(gpus, cents)) == Some(gpus * cents)
  {
    hide At, Worth, Decimal, CentPart;
    var count, whole, frac := Decimal(gpus), Decimal(cents / 100), CentPart(cents % 100);
    var m := "\U{00D7} GPU @ $";
    var t := count + m + AmountText(whole, frac) + "/hr";
    assert RentalText(gpus, cents) == "GPU usage " + t;
    SkipPlain(RentalRate, "GPU usage ", t);
    MatchFound(RentalRate, t, count, m, whole, frac, "");
    assert t + "" == t;
    DollarsReadBack(gpus, cents);
  }

  lemma ModelTailShape(gpus: nat, cents: nat) returns (t: string, m: string)
    ensures ModelTail(gpus, cents) == t + Each(gpus)
    ensures IsRateText(ModelRate, t, Decimal(gpus), m, Decimal(cents / 100), CentPart(cents % 100))
    ensures '\U{00D7}' !in ModelTail(gpus, cents)
  {
    hide Decimal, CentPart, Each, IsMiddle;
    var count, whole, frac := Decimal(gpus), Decimal(cents / 100), CentPart(cents % 100);
    var amount := whole + "." + frac;
    m := GpuMiddle(gpus);
    t := count + m + amount + "/hr";
    assert AmountText(whole, frac) == amount;
    assert Dollars(cents) == "$" + amount;
    hide Dollars, AmountText;
    assert count + Gpus(gpus) + " at " + Dollars(cents) == count + m + amount;
    AmountLooks(whole, frac, '\U{00D7}');
    NowhereIn('\U{00D7}', count, m, amount, "/hr");
  }

  lemma GpuMiddle(gpus: nat) returns (m: string)
    ensures m == Gpus(gpus) + " at " + "$" && IsMiddle(ModelRate, m)
    ensures '\U{00D7}' !in m && '\U{00D7}' !in Each(gpus)
  {
    m := if gpus == 1 then " GPU at $" else " GPUs at $";
  }

  lemma ModelTailReads(gpus: nat, cents: nat)
    ensures Search(RentalRate, ModelTail(gpus, cents)) == None
    ensures Search(ModelRate, ModelTail(gpus, cents)) == Some(gpus * cents)
  {
    hide At, Worth, CentPart, Decimal, IsRateText, ModelTail;
    var t, m := ModelTailShape(gpus, cents);
    NoSignNoRental(ModelTail(gpus, cents));
    MatchFound(ModelRate, t, Decimal(gpus), m, Decimal(cents / 100), CentPart(cents % 100), Each(gpus));
    DollarsReadBack(gpus, cents);
  }

  /** Exactly what a private model's charge text reads as: a rate in the model's
      own name if there is one, else the rate that was charged. */
  lemma ModelReadsAs(workload: Option<Workload>, gpus: nat, cents: nat)
    ensures CentsPerHour(ModelText(workload, gpus, cents))
         == OrElse(CentsPerHour(ShownName(workload)), Some(gpus * cents))
  {
    hide Search, ShownName, ModelTail;
    var name, tail := ShownName(workload), ModelTail(gpus, cents);
    var text := ModelText(workload, gpus, cents);
    assert text == "Private model " + (name + " \U{00B7} " + tail);
    forall k ensures Search(k, text) == OrElse(Search(k, name), Search(k, tail)) {
      SkipPlain(k, "Private model ", name + " \U{00B7} " + tail);
      SearchBeforeDot(k, name, tail);
    }
    ModelTailReads(gpus, cents);
  }

  /** So the round trip holds exactly for names that say no other rate. */
  lemma ModelRoundTripIff(workload: Option<Workload>, gpus: nat, cents: nat)
    ensures CentsPerHour(ModelText(workload, gpus, cents)) == Some(gpus * cents)
       <==> CentsPerHour(ShownName(workload)) in {None, Some(gpus * cents)}
  {
    ModelReadsAs(workload, gpus, cents);
  }

  /** A model named like a charge is read at the rate in its name. */
  lemma NameCanMislead(gpus: nat, cents: nat)
    ensures CentsPerHour(ModelText(Some(Workload(RentalText(gpus, cents), "", "")), 1, 40)) == Some(gpus * cents)
  {
    ModelReadsAs(Some(Workload(RentalText(gpus, cents), "", "")), 1, 40);
    RentalRoundTrip(gpus, cents);
  }
}
