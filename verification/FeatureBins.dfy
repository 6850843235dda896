/** Turning a listing into the buckets the model learns on: training and scoring share this one
    function. `partido` reads the locality out of a location and `ln` is the natural logarithm, of
    which only its order and its zero are used. */
module FeatureBins {
  import opened Basics
  import opened Numerals
  import opened Scoring

  const UNKNOWN := "unknown"
  const PPM2_LINEAR_STEP := 250
  const LOG_BIN_RATIO := 1.12
  const M2_STEP := 10

  ghost predicate IsLogarithm(ln: real -> real) {
    StrictlyIncreasing(ln) && ln(1.0) == 0.0
  }

  // ---------- bins ----------

  /** The lower end of the bin of v. */
  function LowerEnd(v: real, step: nat): int
    requires step > 0
  {
    (v / step as real).Floor * step
  }

  function LinearBin(v: real, step: nat): string
    requires step > 0
  {
    if v <= 0.0 then UNKNOWN
    else Signed(LowerEnd(v, step)) + "-" + Signed(LowerEnd(v, step) + step)
  }

  function LogIndex(v: real, ln: real -> real): int
    requires IsLogarithm(ln)
  {
    assert ln(LOG_BIN_RATIO) > ln(1.0);
    (ln(v) / ln(LOG_BIN_RATIO)).Floor
  }

  function LogBin(v: real, ln: real -> real): string
    requires IsLogarithm(ln)
  {
    if v <= 0.0 then UNKNOWN else "log" + Signed(LogIndex(v, ln))
  }

  function BinFor(namespace: string, feature: string, v: real, ln: real -> real): string
    requires IsLogarithm(ln)
  {
    if namespace == "venta:USD" && feature == "ppm2" && v > 0.0 then LinearBin(v, PPM2_LINEAR_STEP)
    else LogBin(v, ln)
  }

  function IntBucket(v: Option<int>): string {
    match v
    case None => UNKNOWN
    case Some(n) => Signed(n)
  }

  /** The bin of v is an interval that contains it. */
  lemma LowerEndBelow(v: real, step: nat)
    requires step > 0 && v > 0.0
    ensures 0 <= LowerEnd(v, step)
    ensures LowerEnd(v, step) as real <= v < (LowerEnd(v, step) + step) as real
  {
    var q, k := v / step as real, (v / step as real).Floor;
    assert q * step as real == v;
    assert q > 0.0 && k >= 0;
    ScaledCompare(q, k as real, step as real);
    ScaledCompare(q, (k + 1) as real, step as real);
    ProductAsReal(k, step);
    ProductAsReal(k + 1, step);
    NextMultiple(k, step);
    assert q < (k + 1) as real;
    assert LowerEnd(v, step) == k * step && LowerEnd(v, step) + step == (k + 1) * step;
    assert v < (k + 1) as real * step as real;
  }

  lemma NextMultiple(k: int, step: nat)
    ensures (k + 1) * step == k * step + step
  {
  }

  lemma ProductAsReal(k: int, step: nat)
    ensures (k * step) as real == k as real * step as real
  {
  }

  /** The text before the first dash of a printed pair of numbers is the first of them. */
  lemma PairInjective(a: nat, x: string, b: nat, y: string)
    requires Signed(a) + "-" + x == Signed(b) + "-" + y
    ensures a == b
  {
    var s, t := Signed(a), Signed(b);
    var whole := s + "-" + x;
    assert whole == t + "-" + y;
    assert forall i :: 0 <= i < |s| ==> whole[i] == s[i];
    assert forall i :: 0 <= i < |t| ==> whole[i] == t[i];
    assert whole[|s|] == '-' && whole[|t|] == '-';
    assert |s| == |t|;
    assert s == whole[..|s|] == t;
    SignedInjective(a, b);
  }

  lemma SignedIsNot(n: int)
    ensures Signed(n) != UNKNOWN
  {
    SignedShape(n);
    assert IsDigit(Signed(n)[0]) || Signed(n)[0] == '-';
    assert UNKNOWN[0] == 'u';
  }

  /** Two sizes share a bin exactly when one interval contains both, or neither is positive. */
  lemma LinearBinShared(v: real, w: real, step: nat)
    requires step > 0
    ensures LinearBin(v, step) == LinearBin(w, step) <==>
            (v <= 0.0 && w <= 0.0) || (v > 0.0 && w > 0.0 && LowerEnd(v, step) == LowerEnd(w, step))
  {
    if v > 0.0 {
      LowerEndBelow(v, step);
      SignedShape(LowerEnd(v, step));
      assert LinearBin(v, step)[0] == Signed(LowerEnd(v, step))[0];
    }
    if w > 0.0 {
      LowerEndBelow(w, step);
      SignedShape(LowerEnd(w, step));
      assert LinearBin(w, step)[0] == Signed(LowerEnd(w, step))[0];
    }
    if v > 0.0 && w > 0.0 && LinearBin(v, step) == LinearBin(w, step) {
      PairInjective(LowerEnd(v, step), Signed(LowerEnd(v, step) + step), LowerEnd(w, step), Signed(LowerEnd(w, step) + step));
    }
  }

  lemma LogBinShared(v: real, w: real, ln: real -> real)
    requires IsLogarithm(ln)
    ensures LogBin(v, ln) == LogBin(w, ln) <==>
            (v <= 0.0 && w <= 0.0) || (v > 0.0 && w > 0.0 && LogIndex(v, ln) == LogIndex(w, ln))
  {
    if v > 0.0 && w > 0.0 && LogBin(v, ln) == LogBin(w, ln) {
      assert LogBin(v, ln)[3..] == Signed(LogIndex(v, ln)) && LogBin(w, ln)[3..] == Signed(LogIndex(w, ln));
      SignedInjective(LogIndex(v, ln), LogIndex(w, ln));
    }
    assert v > 0.0 ==> LogBin(v, ln)[0] == 'l';
    assert w > 0.0 ==> LogBin(w, ln)[0] == 'l';
  }

  /** Bins follow the order of the values, so a value between two of one bin is in it too. */
  lemma LogIndexOrdered(v: real, w: real, ln: real -> real)
    requires IsLogarithm(ln) && 0.0 < v <= w
    ensures LogIndex(v, ln) <= LogIndex(w, ln)
  {
    assert ln(LOG_BIN_RATIO) > ln(1.0);
    DividedOrder(ln(v), ln(w), ln(LOG_BIN_RATIO));
  }

  lemma DividedOrder(a: real, b: real, r: real)
    requires a <= b && r > 0.0
    ensures (a / r).Floor <= (b / r).Floor
  {
    var x, y := a / r, b / r;
    assert x * r == a && y * r == b;
    ScaledCompare(y, x, r);
  }

  // ---------- extraction ----------

  /** Operation and currency partition the numeric features; without both there is no namespace. */
  function NamespaceOf(l: Listing): string {
    if l.operation == "" || l.currency == "" then "" else l.operation + ":" + l.currency
  }

  function PricePerM2(l: Listing): Option<real> {
    if l.priceAmount == None || l.m2Tot == None then None
    else if l.m2Tot.value < 10.0 || l.m2Tot.value > 1000.0 then None
    else Some(l.priceAmount.value as real / l.m2Tot.value)
  }

  function Categorical(l: Listing, partido: string -> string): Features {
    map["partido" := if partido(l.location) != "" then partido(l.location) else UNKNOWN,
        "banios" := IntBucket(l.banos)]
  }

  function Size(l: Listing): Features {
    match (l.m2Tot, l.m2Cub)
    case (Some(v), _) => map["m2:tot" := LinearBin(v, M2_STEP)]
    case (None, Some(v)) => map["m2:cub" := LinearBin(v, M2_STEP)]
    case (None, None) => map[]
  }

  function Numeric(l: Listing, ln: real -> real): Features
    requires IsLogarithm(ln)
  {
    var ns := NamespaceOf(l);
    if ns == "" then map[]
    else
      (match PricePerM2(l)
       case Some(v) => map["ppm2:" + ns := BinFor(ns, "ppm2", v, ln)]
       case None => map[]) +
      (match l.expensas
       case Some(n) => map["expensas:" + ns := BinFor(ns, "expensas", n as real, ln)]
       case None => map[])
  }

  function ExtractOf(l: Listing, partido: string -> string, ln: real -> real): Features
    requires IsLogarithm(ln)
  {
    Categorical(l, partido) + Size(l) + Numeric(l, ln)
  }

  method Extract(l: Listing, partido: string -> string, ln: real -> real) returns (f: Features)
    requires IsLogarithm(ln)
    ensures f == ExtractOf(l, partido, ln)
  {
    f := map[];
    var p := partido(l.location);
    if p != "" {
      f := f["partido" := p];
    } else {
      f := f["partido" := UNKNOWN];
    }
    f := f["banios" := IntBucket(l.banos)];
    assert f == Categorical(l, partido);
    if l.m2Tot.Some? {
      f := f["m2:tot" := LinearBin(l.m2Tot.value, M2_STEP)];
    } else if l.m2Cub.Some? {
      f := f["m2:cub" := LinearBin(l.m2Cub.value, M2_STEP)];
    }
    assert f == Categorical(l, partido) + Size(l);
    var numeric := ExtractNumeric(l, ln);
    f := f + numeric;
  }

  method ExtractNumeric(l: Listing, ln: real -> real) returns (f: Features)
    requires IsLogarithm(ln)
    ensures f == Numeric(l, ln)
  {
    f := map[];
    var ns := NamespaceOf(l);
    if ns != "" {
      var ppm2 := PricePerM2(l);
      if ppm2.Some? {
        f := f["ppm2:" + ns := BinFor(ns, "ppm2", ppm2.value, ln)];
      }
      if l.expensas.Some? {
        f := f["expensas:" + ns := BinFor(ns, "expensas", l.expensas.value as real, ln)];
      }
    }
  }

  // ---------- the two rules ----------

  const PLAIN_NAMES: set<string> := {"partido", "banios", "m2:tot", "m2:cub"}

  /** Every feature that is not plain carries its listing's namespace. */
  lemma NamesCarryNamespace(l: Listing, partido: string -> string, ln: real -> real, name: string)
    requires IsLogarithm(ln)
    ensures name in ExtractOf(l, partido, ln) && name !in PLAIN_NAMES ==>
              NamespaceOf(l) != "" && (name == "ppm2:" + NamespaceOf(l) || name == "expensas:" + NamespaceOf(l))
  {
  }

  lemma SameNamespace(a: string, b: string)
    requires "ppm2:" + a == "ppm2:" + b || "expensas:" + a == "expensas:" + b
    ensures a == b
  {
    if "ppm2:" + a == "ppm2:" + b {
      assert ("ppm2:" + a)[5..] == a && ("ppm2:" + b)[5..] == b;
    } else {
      assert ("expensas:" + a)[9..] == a && ("expensas:" + b)[9..] == b;
    }
  }

  lemma DifferentFeatures(a: string, b: string)
    ensures "ppm2:" + a != "expensas:" + b
  {
    assert ("ppm2:" + a)[0] == 'p' && ("expensas:" + b)[0] == 'e';
  }

  /** Partition keys: two listings of different operation and currency share no numeric bucket, so
      rating one never touches the price evidence of the other. */
  lemma NamespacesNeverMix(a: Listing, b: Listing, partido: string -> string, ln: real -> real)
    requires IsLogarithm(ln) && NamespaceOf(a) != NamespaceOf(b)
    ensures Shared(ExtractOf(a, partido, ln), ExtractOf(b, partido, ln)) <= PLAIN_NAMES
  {
    forall n | n in Shared(ExtractOf(a, partido, ln), ExtractOf(b, partido, ln)) ensures n in PLAIN_NAMES {
      if n !in PLAIN_NAMES {
        NamesCarryNamespace(a, partido, ln, n);
        NamesCarryNamespace(b, partido, ln, n);
        DifferentFeatures(NamespaceOf(a), NamespaceOf(b));
        DifferentFeatures(NamespaceOf(b), NamespaceOf(a));
        SameNamespace(NamespaceOf(a), NamespaceOf(b));
      }
    }
  }

  /** Namespaces tell operation and currency apart, as long as no operation contains the colon that
      joins them; the parser only knows "venta" and "alquiler". */
  lemma NamespaceInjective(a: Listing, b: Listing)
    requires NamespaceOf(a) != "" && NamespaceOf(a) == NamespaceOf(b)
    requires ':' !in a.operation && ':' !in b.operation
    ensures a.operation == b.operation && a.currency == b.currency
  {
    var s, t, whole := a.operation, b.operation, NamespaceOf(a);
    assert forall i :: 0 <= i < |s| ==> whole[i] == s[i];
    assert forall i :: 0 <= i < |t| ==> whole[i] == t[i];
    assert whole[|s|] == ':' && whole[|t|] == ':';
    assert |s| == |t|;
    assert s == whole[..|s|] == t;
    assert a.currency == whole[|s| + 1..] == b.currency;
  }

  /** Absent values: the bathroom bucket tells every count and the missing one apart, and a listing
      without currency or operation has no numeric feature at all. */
  lemma AbsentIsExplicit(a: Listing, b: Listing, partido: string -> string, ln: real -> real)
    requires IsLogarithm(ln)
    ensures {"partido", "banios"} <= ExtractOf(a, partido, ln).Keys && |ExtractOf(a, partido, ln)| <= 5
    ensures "banios" in Shared(ExtractOf(a, partido, ln), ExtractOf(b, partido, ln)) <==> a.banos == b.banos
    ensures a.currency == "" || a.operation == "" ==> ExtractOf(a, partido, ln).Keys <= PLAIN_NAMES
  {
    BathroomBucket(a, partido, ln);
    BathroomBucket(b, partido, ln);
    BucketsDiffer(a.banos, b.banos);
    FewFeatures(a, partido, ln);
  }

  // ---------- the numeric buckets, from the listing itself ----------

  /** What the numeric part of the features holds. */
  lemma NumericPart(l: Listing, ln: real -> real)
    requires IsLogarithm(ln)
    ensures var f, ns := Numeric(l, ln), l.operation + ":" + l.currency;
            && f.Keys <= {"ppm2:" + ns, "expensas:" + ns}
            && ("ppm2:" + ns in f <==>
                  && l.operation != "" && l.currency != "" && l.priceAmount.Some?
                  && l.m2Tot.Some? && 10.0 <= l.m2Tot.value <= 1000.0)
            && ("expensas:" + ns in f <==> l.operation != "" && l.currency != "" && l.expensas.Some?)
  {
    DifferentFeatures(l.operation + ":" + l.currency, l.operation + ":" + l.currency);
  }

  lemma NumericPartValues(l: Listing, ln: real -> real)
    requires IsLogarithm(ln)
    ensures var f, ns := Numeric(l, ln), l.operation + ":" + l.currency;
            && ("ppm2:" + ns in f ==>
                  l.priceAmount.Some? && l.m2Tot.Some? && l.m2Tot.value != 0.0
                  && f["ppm2:" + ns] == BinFor(ns, "ppm2", l.priceAmount.value as real / l.m2Tot.value, ln))
            && ("expensas:" + ns in f ==>
                  l.expensas.Some? && f["expensas:" + ns] == BinFor(ns, "expensas", l.expensas.value as real, ln))
  {
    NumericPart(l, ln);
    DifferentFeatures(l.operation + ":" + l.currency, l.operation + ":" + l.currency);
  }

  /** The plain names are read from the plain part, the others from the numeric one. */
  lemma ExtractParts(l: Listing, partido: string -> string, ln: real -> real, name: string)
    requires IsLogarithm(ln)
    ensures var f, plain := ExtractOf(l, partido, ln), Categorical(l, partido) + Size(l);
            if name in PLAIN_NAMES then (name in f <==> name in plain) && (name in f ==> f[name] == plain[name])
            else (name in f <==> name in Numeric(l, ln)) && (name in f ==> f[name] == Numeric(l, ln)[name])
  {
    NotPlain(l.operation + ":" + l.currency);
    NumericPart(l, ln);
  }

  /** The features that say how large and how expensive a listing is, by what the page gives. */
  lemma NumericNames(l: Listing, partido: string -> string, ln: real -> real)
    requires IsLogarithm(ln)
    ensures var f, ns := ExtractOf(l, partido, ln), l.operation + ":" + l.currency;
            && ("ppm2:" + ns in f <==>
                  && l.operation != "" && l.currency != "" && l.priceAmount.Some?
                  && l.m2Tot.Some? && 10.0 <= l.m2Tot.value <= 1000.0)
            && ("expensas:" + ns in f <==> l.operation != "" && l.currency != "" && l.expensas.Some?)
  {
    var ns := l.operation + ":" + l.currency;
    NotPlain(ns);
    NumericPart(l, ln);
    ExtractParts(l, partido, ln, "ppm2:" + ns);
    ExtractParts(l, partido, ln, "expensas:" + ns);
  }

  /** The locality or its absence, and the one surface measure used: the total if given, else the covered
      one. Two surfaces share a bucket exactly if one interval of ten holds both. */
  lemma PlainBuckets(a: Listing, b: Listing, partido: string -> string, ln: real -> real)
    requires IsLogarithm(ln)
    ensures var f, g := ExtractOf(a, partido, ln), ExtractOf(b, partido, ln);
            && "partido" in f && f["partido"] == (if partido(a.location) != "" then partido(a.location) else "unknown")
            && ("m2:tot" in f <==> a.m2Tot.Some?)
            && ("m2:cub" in f <==> a.m2Tot == None && a.m2Cub.Some?)
            && ("m2:tot" in Shared(f, g) <==> a.m2Tot.Some? && b.m2Tot.Some? && OneInterval(a.m2Tot.value, b.m2Tot.value, 10))
            && ("m2:cub" in Shared(f, g) <==>
                  && a.m2Tot == None && b.m2Tot == None && a.m2Cub.Some? && b.m2Cub.Some?
                  && OneInterval(a.m2Cub.value, b.m2Cub.value, 10))
  {
    PlainLookups(a, partido, ln);
    PlainLookups(b, partido, ln);
    if a.m2Tot.Some? && b.m2Tot.Some? {
      LinearBinInterval(a.m2Tot.value, b.m2Tot.value, 10);
    }
    if a.m2Cub.Some? && b.m2Cub.Some? {
      LinearBinInterval(a.m2Cub.value, b.m2Cub.value, 10);
    }
  }

  lemma PlainLookups(l: Listing, partido: string -> string, ln: real -> real)
    requires IsLogarithm(ln)
    ensures var f := ExtractOf(l, partido, ln);
            && "partido" in f && f["partido"] == (if partido(l.location) != "" then partido(l.location) else "unknown")
            && ("m2:tot" in f <==> l.m2Tot.Some?) && ("m2:tot" in f ==> f["m2:tot"] == LinearBin(l.m2Tot.value, 10))
            && ("m2:cub" in f <==> l.m2Tot == None && l.m2Cub.Some?)
            && ("m2:cub" in f ==> f["m2:cub"] == LinearBin(l.m2Cub.value, 10))
  {
    ExtractParts(l, partido, ln, "partido");
    ExtractParts(l, partido, ln, "m2:tot");
    ExtractParts(l, partido, ln, "m2:cub");
  }

  /** One interval of the given step, counted from zero, holds both, or neither is positive. */
  ghost predicate OneInterval(v: real, w: real, step: nat) {
    || (v <= 0.0 && w <= 0.0)
    || exists k: nat :: (k * step) as real <= v < (k * step + step) as real && (k * step) as real <= w < (k * step + step) as real
                        && v > 0.0 && w > 0.0
  }

  /** Some whole number of factors of 1.12 is below both and not a factor below either, or neither is
      positive. */
  ghost predicate OneLogInterval(v: real, w: real, ln: real -> real) {
    || (v <= 0.0 && w <= 0.0)
    || (v > 0.0 && w > 0.0 && exists k: int :: InLogInterval(v, k, ln) && InLogInterval(w, k, ln))
  }

  ghost predicate InLogInterval(v: real, k: int, ln: real -> real) {
    k as real * ln(1.12) <= ln(v) < (k + 1) as real * ln(1.12)
  }

  lemma LinearBinInterval(v: real, w: real, step: nat)
    requires step > 0
    ensures LinearBin(v, step) == LinearBin(w, step) <==> OneInterval(v, w, step)
  {
    LinearBinShared(v, w, step);
    if v > 0.0 && w > 0.0 {
      IntervalUnique(v, step);
      IntervalUnique(w, step);
    }
  }

  lemma IntervalUnique(v: real, step: nat)
    requires step > 0 && v > 0.0
    ensures exists k: nat :: LowerEnd(v, step) == k * step
    ensures forall k: nat :: (k * step) as real <= v < (k * step + step) as real <==> LowerEnd(v, step) == k * step
  {
    LowerEndBelow(v, step);
    var floor := (v / step as real).Floor;
    ScaledCompare(0.0, v / step as real, step as real);
    assert LowerEnd(v, step) == floor * step;
    forall k: nat ensures (k * step) as real <= v < (k * step + step) as real <==> LowerEnd(v, step) == k * step {
      MultiplesApart(k, floor, step);
    }
  }

  /** Different multiples of a step are a step apart. */
  lemma MultiplesApart(j: int, k: int, step: nat)
    ensures j < k ==> j * step + step <= k * step
    ensures k < j ==> k * step + step <= j * step
  {
    if j < k {
      Apart(j, k - j - 1, step);
    }
    if k < j {
      Apart(k, j - k - 1, step);
    }
  }

  lemma Apart(j: int, d: nat, step: nat)
    ensures (j + (d + 1)) * step >= j * step + step
  {
    assert (j + (d + 1)) * step == j * step + d * step + step;
  }

  lemma LogBinInterval(v: real, w: real, ln: real -> real)
    requires IsLogarithm(ln)
    ensures LogBin(v, ln) == LogBin(w, ln) <==> OneLogInterval(v, w, ln)
  {
    LogBinShared(v, w, ln);
    if v > 0.0 && w > 0.0 {
      LogIntervalUnique(v, ln);
      LogIntervalUnique(w, ln);
      assert InLogInterval(v, LogIndex(v, ln), ln);
    }
  }

  lemma LogIntervalUnique(v: real, ln: real -> real)
    requires IsLogarithm(ln)
    ensures forall k :: InLogInterval(v, k, ln) <==> LogIndex(v, ln) == k
  {
    assert ln(1.12) > ln(1.0);
    forall k ensures InLogInterval(v, k, ln) <==> LogIndex(v, ln) == k {
      FloorOf(ln(v), ln(1.12), k);
    }
  }

  lemma FloorOf(x: real, r: real, k: int)
    requires r > 0.0
    ensures k as real * r <= x < (k + 1) as real * r <==> (x / r).Floor == k
  {
    var q := x / r;
    QuotientBelow(x, r, k as real);
    QuotientBelow(x, r, (k + 1) as real);
    assert (k + 1) as real == k as real + 1.0;
    assert k as real <= q < (k + 1) as real <==> q.Floor == k;
  }

  lemma QuotientBelow(x: real, r: real, y: real)
    requires r > 0.0
    ensures x / r < y <==> x < y * r
  {
    var q := x / r;
    assert q * r == x;
    ScaledCompare(q, y, r);
  }

  /** Two dollar sales share the bucket of the price per square metre exactly if their prices per square
      metre of total surface lie in one interval of 250; under any other operation and currency, if
      they lie in one interval of the logarithmic scale with ratio 1.12. */
  lemma PriceBucketShared(a: Listing, b: Listing, partido: string -> string, ln: real -> real)
    requires IsLogarithm(ln)
    requires a.operation == b.operation && a.currency == b.currency
    requires "ppm2:" + (a.operation + ":" + a.currency) in ExtractOf(a, partido, ln)
    requires "ppm2:" + (b.operation + ":" + b.currency) in ExtractOf(b, partido, ln)
    ensures a.priceAmount.Some? && a.m2Tot.Some? && b.priceAmount.Some? && b.m2Tot.Some?
    ensures a.m2Tot.value >= 10.0 && b.m2Tot.value >= 10.0
    ensures var p, q := a.priceAmount.value as real / a.m2Tot.value, b.priceAmount.value as real / b.m2Tot.value;
            "ppm2:" + (a.operation + ":" + a.currency) in Shared(ExtractOf(a, partido, ln), ExtractOf(b, partido, ln)) <==>
            if a.operation == "venta" && a.currency == "USD" then OneInterval(p, q, 250) else OneLogInterval(p, q, ln)
  {
    NumericNames(a, partido, ln);
    NumericNames(b, partido, ln);
    NotPlain(a.operation + ":" + a.currency);
    ExtractParts(a, partido, ln, "ppm2:" + (a.operation + ":" + a.currency));
    ExtractParts(b, partido, ln, "ppm2:" + (b.operation + ":" + b.currency));
    NumericPartValues(a, ln);
    NumericPartValues(b, ln);
    var p, q := a.priceAmount.value as real / a.m2Tot.value, b.priceAmount.value as real / b.m2Tot.value;
    DollarSale(a.operation, a.currency);
    LinearBinInterval(p, q, 250);
    LogBinInterval(p, q, ln);
  }

  /** Two listings share the bucket of the expenses exactly if these lie in one interval of that scale,
      whatever their operation and currency. */
  lemma ExpensasBucketShared(a: Listing, b: Listing, partido: string -> string, ln: real -> real)
    requires IsLogarithm(ln)
    requires a.operation == b.operation && a.currency == b.currency && a.operation != "" && a.currency != ""
    requires a.expensas.Some? && b.expensas.Some?
    ensures "expensas:" + (a.operation + ":" + a.currency) in Shared(ExtractOf(a, partido, ln), ExtractOf(b, partido, ln)) <==>
            OneLogInterval(a.expensas.value as real, b.expensas.value as real, ln)
  {
    var name := "expensas:" + (a.operation + ":" + a.currency);
    NotPlain(a.operation + ":" + a.currency);
    NumericNames(a, partido, ln);
    NumericNames(b, partido, ln);
    ExtractParts(a, partido, ln, name);
    ExtractParts(b, partido, ln, name);
    NumericPartValues(a, ln);
    NumericPartValues(b, ln);
    LogBinInterval(a.expensas.value as real, b.expensas.value as real, ln);
  }

  /** The namespace of dollar sales is that of no other operation and currency. */
  lemma DollarSale(operation: string, currency: string)
    ensures operation + ":" + currency == "venta:USD" <==> operation == "venta" && currency == "USD"
  {
    var ns := operation + ":" + currency;
    assert ns[|operation|] == ':';
    if ns == "venta:USD" {
      assert |operation| == 5;
      assert operation == ns[..5] && currency == ns[6..];
    }
  }

  lemma BathroomBucket(l: Listing, partido: string -> string, ln: real -> real)
    requires IsLogarithm(ln)
    ensures {"partido", "banios"} <= ExtractOf(l, partido, ln).Keys
    ensures ExtractOf(l, partido, ln)["banios"] == IntBucket(l.banos)
  {
    NotPlain(NamespaceOf(l));
  }

  lemma NotPlain(ns: string)
    ensures "ppm2:" + ns !in PLAIN_NAMES && "expensas:" + ns !in PLAIN_NAMES
  {
    assert ("ppm2:" + ns)[1] == 'p' && ("expensas:" + ns)[1] == 'x';
    assert "partido"[1] == 'a' && "banios"[1] == 'a' && "m2:tot"[1] == '2' && "m2:cub"[1] == '2';
  }

  lemma BucketsDiffer(a: Option<int>, b: Option<int>)
    ensures IntBucket(a) == IntBucket(b) <==> a == b
  {
    match (a, b)
    case (Some(n), Some(m)) => if Signed(n) == Signed(m) { SignedInjective(n, m); }
    case (Some(n), None) => SignedIsNot(n);
    case (None, Some(m)) => SignedIsNot(m);
    case (None, None) =>
  }

  lemma FewFeatures(l: Listing, partido: string -> string, ln: real -> real)
    requires IsLogarithm(ln)
    ensures |ExtractOf(l, partido, ln)| <= 5
  {
    var ns := NamespaceOf(l);
    var size := if l.m2Tot.Some? then "m2:tot" else "m2:cub";
    var names := ["partido", "banios", size, "ppm2:" + ns, "expensas:" + ns];
    NamesIn(l, partido, ln, size, names);
    SubsetSize(ExtractOf(l, partido, ln).Keys, Elements(names));
    assert |ExtractOf(l, partido, ln)| == |ExtractOf(l, partido, ln).Keys|;
  }

  lemma NamesIn(l: Listing, partido: string -> string, ln: real -> real, size: string, names: seq<string>)
    requires IsLogarithm(ln)
    requires names == ["partido", "banios", size, "ppm2:" + NamespaceOf(l), "expensas:" + NamespaceOf(l)]
    requires size == if l.m2Tot.Some? then "m2:tot" else "m2:cub"
    ensures ExtractOf(l, partido, ln).Keys <= Elements(names) && |Elements(names)| <= 5
  {
    assert names[0] in names && names[1] in names && names[2] in names && names[3] in names && names[4] in names;
    assert Categorical(l, partido).Keys <= Elements(names);
    assert Size(l).Keys <= Elements(names);
    assert Numeric(l, ln).Keys <= Elements(names);
    ElementsPrepend("", names);
  }

  lemma {:induction false} SubsetSize(a: set<string>, b: set<string>)
    requires a <= b
    ensures |a| <= |b|
  {
    assert b == a + (b - a);
  }
}
