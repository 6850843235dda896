/** Prices as text: the es-AR thousands format a card shows, and the parser that reads prices from
    the site. */
module Money {
  import opened Basics
  import opened Numerals
  import opened Text

  // ---------- formatting ----------

  /** A dot before every group of three digits, counted from the right. */
  function Grouped(s: string): string {
    if |s| <= 3 then s else Grouped(s[..|s| - 3]) + "." + s[|s| - 3..]
  }

  function Formatted(n: int): string {
    if n < 0 then "-" + Grouped(Decimal(-n)) else Grouped(Decimal(n))
  }

  /** The first i digits, each preceded by a dot where a group starts: the left-to-right loop. */
  ghost function Emitted(s: string, i: nat): string
    requires i <= |s|
  {
    if i == 0 then "" else Emitted(s, i - 1) + Separator(s, i - 1) + [s[i - 1]]
  }

  function Separator(s: string, i: nat): string
    requires i < |s|
  {
    if i > 0 && (|s| - i) % 3 == 0 then "." else ""
  }

  lemma {:induction false} EmittedPrefix(s: string, i: nat)
    requires |s| > 3 && i <= |s| - 3
    ensures Emitted(s, i) == Emitted(s[..|s| - 3], i)
  {
    if i > 0 {
      EmittedPrefix(s, i - 1);
    }
  }

  lemma {:induction false} EmittedIsGrouped(s: string)
    ensures Emitted(s, |s|) == Grouped(s)
  {
    if |s| <= 3 {
      EmittedShort(s, |s|);
    } else {
      EmittedIsGrouped(s[..|s| - 3]);
      EmittedLong(s);
    }
  }

  lemma EmittedLong(s: string)
    requires |s| > 3 && Emitted(s[..|s| - 3], |s| - 3) == Grouped(s[..|s| - 3])
    ensures Emitted(s, |s|) == Grouped(s)
  {
    EmittedPrefix(s, |s| - 3);
    EmittedLastGroup(s);
  }

  lemma EmittedLastGroup(s: string)
    requires |s| > 3
    ensures Emitted(s, |s|) == Emitted(s, |s| - 3) + "." + s[|s| - 3..]
  {
    var n := |s|;
    JoinGroup(Emitted(s, n - 3), Emitted(s, n - 2), Emitted(s, n - 1), Emitted(s, n), s);
  }

  lemma JoinGroup(a: string, b: string, c: string, d: string, s: string)
    requires |s| > 3
    requires b == a + Separator(s, |s| - 3) + [s[|s| - 3]]
    requires c == b + Separator(s, |s| - 2) + [s[|s| - 2]]
    requires d == c + Separator(s, |s| - 1) + [s[|s| - 1]]
    ensures d == a + "." + s[|s| - 3..]
  {
    assert b == a + "." + [s[|s| - 3]];
    assert c == b + [s[|s| - 2]];
    assert d == c + [s[|s| - 1]];
  }

  lemma {:induction false} EmittedShort(s: string, i: nat)
    requires i <= |s| <= 3
    ensures Emitted(s, i) == s[..i]
  {
    if i > 0 {
      EmittedShort(s, i - 1);
      assert s[..i] == s[..i - 1] + [s[i - 1]];
    }
  }

  /** Counted from the right, every fourth character is a dot and no other is. */
  lemma {:induction false} DotsEveryThree(s: string, k: nat)
    requires AllDigits(s) && k < |Grouped(s)|
    ensures Grouped(s)[|Grouped(s)| - 1 - k] == '.' <==> k % 4 == 3
    decreases |s|
  {
    if |s| > 3 {
      var head := s[..|s| - 3];
      if k >= 4 {
        DotsEveryThree(head, k - 4);
        assert Grouped(s)[|Grouped(s)| - 1 - k] == Grouped(head)[|Grouped(head)| - 1 - (k - 4)];
      }
    }
  }

  method FormatThousands(n: int64) returns (r: string)
    ensures r == Formatted(n)
    ensures Dotted(r)
  {
    DotsPlaced(n);
    var s := Signed(n);
    var neg := s[0] == '-';
    SignedShape(n);
    if neg {
      s := s[1..];
    }
    r := "";
    for i := 0 to |s|
      invariant r == Emitted(s, i)
    {
      if i > 0 && (|s| - i) % 3 == 0 {
        r := r + ".";
      }
      r := r + [s[i]];
    }
    EmittedIsGrouped(s);
    if neg {
      r := "-" + r;
    }
  }

  /** A dot before every third digit from the right, whatever the sign. */
  ghost predicate Dotted(r: string) {
    forall k :: 0 <= k < |r| && r[|r| - 1 - k] != '-' ==> (r[|r| - 1 - k] == '.' <==> k % 4 == 3)
  }

  lemma DotsPlaced(n: int64)
    ensures Dotted(Formatted(n))
  {
    ValueOfDecimal(Abs(n));
    SignedDots(if n < 0 then "-" else "", Decimal(Abs(n)), Formatted(n));
  }

  lemma SignedDots(sign: string, s: string, r: string)
    requires (sign == "" || sign == "-") && AllDigits(s) && r == sign + Grouped(s)
    ensures Dotted(r)
  {
    forall k | 0 <= k < |r| && r[|r| - 1 - k] != '-' ensures r[|r| - 1 - k] == '.' <==> k % 4 == 3 {
      SignFirst(sign, Grouped(s), r, k);
      DotsEveryThree(s, k);
    }
  }

  lemma SignFirst(sign: string, digits: string, r: string, k: nat)
    requires sign == "" || sign == "-"
    requires r == sign + digits && k < |r| && r[|r| - 1 - k] != '-'
    ensures k < |digits| && r[|r| - 1 - k] == digits[|digits| - 1 - k]
  {
  }

  /** PriceLabel, for a listing with a price. */
  function PriceLabel(currency: string, n: int): string {
    TrimSpace(currency + " " + Formatted(n))
  }

  function ExpensasLabel(n: int): string {
    "$ " + Formatted(n)
  }

  // ---------- parsing ----------

  /** White space as a regular expression's \s sees it. */
  predicate IsPatternSpace(c: char) {
    c == ' ' || c == '\t' || c == '\n' || c == '\U{C}' || c == '\r'
  }

  /** c is the letter `lower` in either case; the long s folds to s. */
  predicate Folds(c: char, lower: char)
    requires 'a' <= lower <= 'z'
  {
    c == lower || c as int == lower as int - 32 || (lower == 's' && c == '\U{17F}')
  }

  /** "consultar" in any case; lower-casing leaves the long s alone, so it does not count here. */
  predicate IsConsultar(s: string) {
    && |s| >= 9
    && (forall i :: 0 <= i < 9 ==> Folds(s[i], "consultar"[i]) && s[i] != '\U{17F}')
  }

  predicate MentionsConsultar(s: string) {
    exists i :: 0 <= i <= |s| && IsConsultar(s[i..])
  }

  function SkipPatternSpaces(s: string): string {
    if s != "" && IsPatternSpace(s[0]) then SkipPatternSpaces(s[1..]) else s
  }

  predicate StartsWithDesde(s: string) {
    && |s| >= 6 && IsPatternSpace(s[5])
    && (forall i :: 0 <= i < 5 ==> Folds(s[i], "desde"[i]))
  }

  /** A leading "desde" ("from") and the spaces after it are dropped. */
  function DropDesde(s: string): string {
    var t := SkipPatternSpaces(s);
    if StartsWithDesde(t) then SkipPatternSpaces(t[5..]) else s
  }

  predicate IsNumberChar(c: char) {
    IsDigit(c) || c == '.' || c == ','
  }

  /** The longest prefix of digits, dots and commas. */
  function Run(s: string): string {
    if s != "" && IsNumberChar(s[0]) then [s[0]] + Run(s[1..]) else ""
  }

  /** The leftmost number: from the first digit, as far as digits and separators go. */
  function FirstNumber(s: string): string {
    if s == "" then "" else if IsDigit(s[0]) then Run(s) else FirstNumber(s[1..])
  }

  function Unseparated(s: string): string {
    if s == "" then ""
    else (if s[0] == '.' || s[0] == ',' then "" else [s[0]]) + Unseparated(s[1..])
  }

  function ParseAmount(s: string): Option<int64> {
    var found := FirstNumber(s);
    if found == "" then None else ParseInt64(Unseparated(found))
  }

  function CurrencyOf(s: string): string {
    if |s| >= 3 && Folds(s[0], 'u') && Folds(s[1], 's') && Folds(s[2], 'd') then "USD"
    else if s != "" && s[0] == '$' then "ARS"
    else ""
  }

  function ParsePrice(raw: string): (Option<int64>, string) {
    var s := TrimSpace(raw);
    if s == "" || MentionsConsultar(s) then (None, "")
    else
      var t := TrimSpace(DropDesde(s));
      match ParseAmount(t)
      case None => (None, "")
      case Some(n) => (Some(n), CurrencyOf(t))
  }

  lemma {:induction false} RunDigits(s: string)
    ensures AllDigits(Unseparated(Run(s)))
  {
    if s != "" && IsNumberChar(s[0]) {
      RunDigits(s[1..]);
      assert ([s[0]] + Run(s[1..]))[1..] == Run(s[1..]);
    }
  }

  lemma AmountNotNegative(s: string)
    ensures ParseAmount(s).Some? ==> ParseAmount(s).value >= 0
  {
    NumberDigits(s);
    ParseDigits(Unseparated(FirstNumber(s)));
  }

  lemma {:induction false} NumberDigits(s: string)
    ensures AllDigits(Unseparated(FirstNumber(s)))
  {
    if s != "" {
      if IsDigit(s[0]) { RunDigits(s); } else { NumberDigits(s[1..]); }
    }
  }

  // ---------- what parsing makes of a formatted number ----------

  lemma {:induction false} UnseparatedConcat(s: string, t: string)
    ensures Unseparated(s + t) == Unseparated(s) + Unseparated(t)
  {
    if s == "" {
      assert s + t == t;
    } else {
      UnseparatedConcat(s[1..], t);
      UnseparatedCons(s[0], s[1..] + t);
      UnseparatedCons(s[0], s[1..]);
      assert s + t == [s[0]] + (s[1..] + t) && s == [s[0]] + s[1..];
    }
  }

  lemma UnseparatedCons(c: char, s: string)
    ensures Unseparated([c] + s) == (if c == '.' || c == ',' then "" else [c]) + Unseparated(s)
  {
    assert ([c] + s)[1..] == s;
  }

  lemma {:induction false} UnseparatedDigits(s: string)
    requires AllDigits(s)
    ensures Unseparated(s) == s
  {
    if s != "" {
      UnseparatedDigits(s[1..]);
    }
  }

  /** Grouping only adds separators: stripping them gives the digits back. */
  lemma {:induction false} UnseparatedGrouped(s: string)
    requires AllDigits(s)
    ensures Unseparated(Grouped(s)) == s
  {
    if |s| <= 3 {
      UnseparatedDigits(s);
    } else {
      var head, tail := s[..|s| - 3], s[|s| - 3..];
      UnseparatedGrouped(head);
      UnseparatedDigits(tail);
      UnseparatedJoin(Grouped(head), tail);
      assert s == head + tail;
    }
  }

  lemma UnseparatedJoin(s: string, t: string)
    ensures Unseparated(s + "." + t) == Unseparated(s) + Unseparated(t)
  {
    UnseparatedConcat(s + ".", t);
    UnseparatedConcat(s, ".");
    UnseparatedCons('.', "");
  }

  lemma {:induction false} GroupedChars(s: string)
    requires s != "" && AllDigits(s)
    ensures Grouped(s) != "" && Grouped(s)[0] == s[0] && Grouped(s)[|Grouped(s)| - 1] == s[|s| - 1]
    ensures forall i :: 0 <= i < |Grouped(s)| ==> IsNumberChar(Grouped(s)[i])
  {
    if |s| > 3 {
      GroupedChars(s[..|s| - 3]);
    }
  }

  lemma GroupedShape(s: string)
    requires s != "" && AllDigits(s)
    ensures Grouped(s) != "" && Grouped(s)[0] == s[0] && Grouped(s)[|Grouped(s)| - 1] == s[|s| - 1]
    ensures forall i :: 0 <= i < |Grouped(s)| ==> IsNumberChar(Grouped(s)[i])
    ensures Unseparated(Grouped(s)) == s
  {
    GroupedChars(s);
    UnseparatedGrouped(s);
  }

  lemma {:induction false} RunOfNumber(s: string)
    requires forall i :: 0 <= i < |s| ==> IsNumberChar(s[i])
    ensures Run(s) == s
  {
    if s != "" {
      RunOfNumber(s[1..]);
    }
  }

  lemma {:induction false} NumberAfter(prefix: string, s: string)
    requires forall i :: 0 <= i < |prefix| ==> !IsDigit(prefix[i])
    ensures FirstNumber(prefix + s) == FirstNumber(s)
  {
    if prefix == "" {
      assert prefix + s == s;
    } else {
      NumberAfter(prefix[1..], s);
      assert (prefix + s)[1..] == prefix[1..] + s;
    }
  }

  function Abs(n: int): nat {
    if n < 0 then -n else n
  }

  /** Whatever text without digits precedes it, a formatted number parses to its magnitude, unless
      that overflows. */
  lemma AmountOfFormatted(prefix: string, n: int64)
    requires forall i :: 0 <= i < |prefix| ==> !IsDigit(prefix[i])
    ensures ParseAmount(prefix + Formatted(n)) == if n == MIN_INT64 then None else Some(Abs(n))
  {
    var digits := Grouped(Decimal(Abs(n)));
    var before := prefix + if n < 0 then "-" else "";
    assert prefix + Formatted(n) == before + digits;
    GroupedShape(Decimal(Abs(n)));
    NumberAfter(before, digits);
    RunOfNumber(digits);
    ValueOfDecimal(Abs(n));
    ParseDigits(Decimal(Abs(n)));
  }

  /** The parser inverts the formatter exactly on the numbers that are not negative. */
  lemma AmountRoundTrip(n: int64)
    ensures ParseAmount(Formatted(n)) == Some(n) <==> n >= 0
  {
    AmountOfFormatted("", n);
    assert "" + Formatted(n) == Formatted(n);
  }

  /** Two different numbers are never shown alike. */
  lemma FormattedInjective(n: int64, m: int64)
    requires Formatted(n) == Formatted(m)
    ensures n == m
  {
    GroupedShape(Decimal(Abs(n)));
    GroupedShape(Decimal(Abs(m)));
    assert n < 0 ==> Formatted(n)[1..] == Grouped(Decimal(Abs(n)));
    assert m < 0 ==> Formatted(m)[1..] == Grouped(Decimal(Abs(m)));
    ValueOfDecimal(Abs(n));
    ValueOfDecimal(Abs(m));
  }

  // ---------- labels ----------

  lemma FormattedEnds(n: int64)
    ensures Formatted(n) != ""
    ensures IsDigit(Formatted(n)[0]) || Formatted(n)[0] == '-'
    ensures !IsSpace(Formatted(n)[|Formatted(n)| - 1])
    ensures forall i :: 0 <= i < |Formatted(n)| ==> IsNumberChar(Formatted(n)[i]) || Formatted(n)[i] == '-'
  {
    GroupedShape(Decimal(Abs(n)));
  }

  predicate IsLabelPrefix(prefix: string) {
    prefix == "USD " || prefix == "ARS " || prefix == "$ " || prefix == ""
  }

  lemma LabelChars(prefix: string, n: int64)
    requires IsLabelPrefix(prefix)
    ensures var s := prefix + Formatted(n);
            && |s| > |prefix| && (forall i :: 0 <= i < |prefix| ==> s[i] == prefix[i])
            && !IsSpace(s[|s| - 1])
            && (forall i :: |prefix| <= i < |s| ==> IsNumberChar(s[i]) || s[i] == '-')
  {
    var s := prefix + Formatted(n);
    FormattedEnds(n);
    assert s[|s| - 1] == Formatted(n)[|Formatted(n)| - 1];
  }

  lemma NoConsultar(s: string)
    requires forall i :: 0 <= i < |s| ==> !Folds(s[i], 'c')
    ensures !MentionsConsultar(s)
  {
    forall i | 0 <= i <= |s| ensures !IsConsultar(s[i..]) {
      assert |s[i..]| >= 9 ==> s[i..][0] == s[i] && "consultar"[0] == 'c';
    }
  }

  lemma NoDesde(s: string)
    requires s != "" && !Folds(s[0], 'd') && !IsPatternSpace(s[0])
    ensures DropDesde(s) == s
  {
    assert "desde"[0] == 'd';
  }

  /** Such a label is trimmed already and says neither "consultar" nor "desde". */
  lemma LabelIsPlain(prefix: string, n: int64)
    requires IsLabelPrefix(prefix)
    ensures var s := prefix + Formatted(n);
            TrimSpace(s) == s && s != "" && !MentionsConsultar(s) && DropDesde(s) == s
  {
    LabelChars(prefix, n);
    LabelStart(prefix, n);
    TrimmedKept(prefix + Formatted(n));
    NoConsultar(prefix + Formatted(n));
    NoDesde(prefix + Formatted(n));
  }

  lemma LabelStart(prefix: string, n: int64)
    requires IsLabelPrefix(prefix)
    ensures var s := prefix + Formatted(n);
            && s != "" && !IsSpace(s[0]) && !IsPatternSpace(s[0]) && !Folds(s[0], 'd')
            && (forall i :: 0 <= i < |s| ==> !Folds(s[i], 'c'))
  {
    var s := prefix + Formatted(n);
    LabelChars(prefix, n);
    forall i | 0 <= i < |s| ensures !Folds(s[i], 'c') {
      if i < |prefix| { assert s[i] == prefix[i]; }
    }
    if prefix != "" { assert s[0] == prefix[0]; }
  }

  lemma LabelCurrency(prefix: string, n: int64)
    requires IsLabelPrefix(prefix)
    ensures CurrencyOf(prefix + Formatted(n)) ==
            if prefix == "USD " then "USD" else if prefix == "$ " then "ARS" else ""
  {
    var s := prefix + Formatted(n);
    LabelChars(prefix, n);
    assert |prefix| > 0 ==> s[0] == prefix[0];
    assert |prefix| > 2 ==> s[1] == prefix[1] && s[2] == prefix[2];
  }

  lemma ParsePlain(prefix: string, n: int64)
    requires IsLabelPrefix(prefix)
    ensures ParsePrice(prefix + Formatted(n)) ==
            if n == MIN_INT64 then (None, "")
            else (Some(Abs(n)), if prefix == "USD " then "USD" else if prefix == "$ " then "ARS" else "")
  {
    LabelIsPlain(prefix, n);
    AmountOfFormatted(prefix, n);
    LabelCurrency(prefix, n);
  }

  lemma LabelText(currency: string, n: int64)
    requires currency == "USD" || currency == "ARS" || currency == ""
    ensures PriceLabel(currency, n) == (if currency == "" then "" else currency + " ") + Formatted(n)
  {
    var s := currency + " " + Formatted(n);
    FormattedEnds(n);
    if currency == "" {
      assert s == " " + Formatted(n) && s[1..] == Formatted(n);
      TrimmedKept(Formatted(n));
    } else {
      assert s[|s| - 1] == Formatted(n)[|Formatted(n)| - 1];
      TrimmedKept(s);
    }
  }

  /** Reading a price label back gives the price exactly for amounts that are not negative in
      dollars or without a currency. A label in pesos reads "ARS 150.000", and the parser knows
      pesos only by "$", so the currency is lost. */
  lemma PriceRoundTrip(currency: string, n: int64)
    requires currency == "USD" || currency == "ARS" || currency == ""
    ensures ParsePrice(PriceLabel(currency, n)) == (Some(n), currency) <==> n >= 0 && currency != "ARS"
    ensures currency == "ARS" && n >= 0 ==> ParsePrice(PriceLabel(currency, n)) == (Some(n), "")
  {
    LabelText(currency, n);
    ParsePlain(if currency == "" then "" else currency + " ", n);
  }

  /** A price that starts "from" is read as the price: the word in any case before a dollar label changes
      neither amount nor currency. */
  lemma DesdeIgnored(word: string, n: int64)
    requires |word| == 5 && forall i :: 0 <= i < 5 ==> Folds(word[i], "desde"[i])
    requires n >= 0
    ensures ParsePrice(word + " " + PriceLabel("USD", n)) == (Some(n), "USD")
  {
    DollarLabel(n);
    DesdeSpelled(word, n);
    LabelIsPlain("USD ", n);
    ParseSpelled(word + " " + ("USD " + Formatted(n)), "USD " + Formatted(n));
    ParsePlain("USD ", n);
  }

  lemma DollarLabel(n: int64)
    ensures PriceLabel("USD", n) == "USD " + Formatted(n)
  {
    LabelText("USD", n);
    assert "USD" + " " == "USD ";
  }

  /** A plain text with "desde" in front is read as the text. */
  lemma ParseSpelled(s: string, t: string)
    requires s != "" && TrimSpace(s) == s && !MentionsConsultar(s) && DropDesde(s) == t
    requires t != "" && TrimSpace(t) == t && !MentionsConsultar(t) && DropDesde(t) == t
    ensures ParsePrice(s) == ParsePrice(t)
  {
  }

  /** Such a text is trimmed, has no "consultar", and only the word is dropped. */
  lemma DesdeSpelled(word: string, n: int64)
    requires |word| == 5 && forall i :: 0 <= i < 5 ==> Folds(word[i], "desde"[i])
    ensures var s := word + " " + ("USD " + Formatted(n));
            s != "" && TrimSpace(s) == s && !MentionsConsultar(s) && DropDesde(s) == "USD " + Formatted(n)
  {
    var price := "USD " + Formatted(n);
    var s := word + " " + price;
    LabelChars("USD ", n);
    LabelStart("USD ", n);
    DesdeChars(word);
    assert s[0] == word[0] && s[|s| - 1] == price[|price| - 1];
    TrimmedKept(s);
    forall i | 0 <= i < |s| ensures !Folds(s[i], 'c') {
      DesdeChar(word, price, i);
    }
    NoConsultar(s);
    DesdeDropped(word, price);
  }

  lemma DesdeChar(word: string, price: string, i: nat)
    requires |word| == 5 && i < 6 + |price|
    ensures (word + " " + price)[i] == if i < 5 then word[i] else if i == 5 then ' ' else price[i - 6]
  {
  }

  lemma DesdeChars(word: string)
    requires |word| == 5 && forall i :: 0 <= i < 5 ==> Folds(word[i], "desde"[i])
    ensures !IsSpace(word[0]) && !IsPatternSpace(word[0]) && forall i :: 0 <= i < 5 ==> !Folds(word[i], 'c')
  {
    assert "desde"[0] == 'd' && "desde"[1] == 'e' && "desde"[2] == 's' && "desde"[3] == 'd' && "desde"[4] == 'e';
  }

  lemma DesdeDropped(word: string, price: string)
    requires |word| == 5 && forall i :: 0 <= i < 5 ==> Folds(word[i], "desde"[i])
    requires price != "" && !IsPatternSpace(price[0])
    ensures DropDesde(word + " " + price) == price
  {
    var s := word + " " + price;
    DesdeChars(word);
    assert s[0] == word[0] && SkipPatternSpaces(s) == s;
    assert forall i :: 0 <= i < 5 ==> s[i] == word[i];
    assert s[5] == ' ' && StartsWithDesde(s);
    assert s[5..] == " " + price && (" " + price)[1..] == price;
    assert SkipPatternSpaces(price) == price;
  }

  /** A text that says "consultar", in any case and wherever, has no price. */
  lemma ConsultarHasNoPrice(before: string, word: string, after: string)
    requires |word| == 9 && forall i :: 0 <= i < 9 ==> Folds(word[i], "consultar"[i]) && word[i] != '\U{17F}'
    ensures ParsePrice(before + word + after) == (None, "")
  {
    assert "consultar"[0] == 'c' && "consultar"[8] == 'r';
    var p, q := TrimKeepsPart(before, word, after);
    var s := p + word + q;
    assert s[|p|..] == word + q;
    forall i | 0 <= i < 9 ensures s[|p|..][i] == word[i] {
    }
    assert IsConsultar(s[|p|..]);
  }

  /** An expenses label is read as pesos, and gives the amount back exactly when not negative. */
  lemma ExpensasRoundTrip(n: int64)
    ensures ParsePrice(ExpensasLabel(n)) == (Some(n), "ARS") <==> n >= 0
  {
    ParsePlain("$ ", n);
  }

  /** Whatever text a page shows, showing the parsed price and parsing it again loses nothing but
      the currency of pesos. */
  lemma ReparseStable(raw: string)
    requires ParsePrice(raw).0.Some?
    ensures var (n, currency) := ParsePrice(raw);
            n.value >= 0 &&
            ParsePrice(PriceLabel(currency, n.value)) == (n, if currency == "ARS" then "" else currency)
  {
    AmountNotNegative(TrimSpace(DropDesde(TrimSpace(raw))));
    var (n, currency) := ParsePrice(raw);
    PriceRoundTrip(currency, n.value);
  }
}
