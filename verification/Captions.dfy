/** The text of a card within Telegram's limit, which counts UTF-16 code units, and the note a
    rating adds to it. */
module Captions {
  import opened Basics
  import opened Text
  import Money

  const CAPTION_LIMIT := 1024
  const MAX_TITLE_ON_CARD := 100

  // ---------- UTF-16 ----------

  /** The code units of one character: itself, or a surrogate pair beyond the basic plane. */
  function Units(c: char): seq<nat> {
    var u := c as int;
    if u < 0x1_0000 then [u]
    else [0xD800 + (u - 0x1_0000) / 0x400, 0xDC00 + (u - 0x1_0000) % 0x400]
  }

  function Encode(s: string): seq<nat> {
    if s == "" then [] else Units(s[0]) + Encode(s[1..])
  }

  function UTF16Len(s: string): nat {
    |Encode(s)|
  }

  /** The units are those of UTF-16: a character of the basic plane itself, or a high and a low surrogate
      that give the character back. */
  lemma UnitsDecode(c: char)
    ensures var u, units := c as int, Units(c);
            if u <= 0xFFFF then units == [u]
            else
              && |units| == 2 && 0xD800 <= units[0] <= 0xDBFF && 0xDC00 <= units[1] <= 0xDFFF
              && u == 0x1_0000 + (units[0] - 0xD800) * 0x400 + (units[1] - 0xDC00)
  {
  }

  /** A length is the number of characters and once more the number of those beyond the basic plane. */
  lemma {:induction false} LenCounts(s: string)
    ensures UTF16Len(s) == |s| + |set i | 0 <= i < |s| && s[i] as int > 0xFFFF|
  {
    var beyond := set i | 0 <= i < |s| && s[i] as int > 0xFFFF;
    if s != "" {
      var n := |s| - 1;
      var before := set i | 0 <= i < n && s[..n][i] as int > 0xFFFF;
      LenCounts(s[..n]);
      LenConcat(s[..n], [s[n]]);
      assert s == s[..n] + [s[n]];
      assert Encode([s[n]]) == Units(s[n]) + [];
      assert beyond == before + if s[n] as int > 0xFFFF then {n} else {};
    } else {
      assert beyond == {};
    }
  }

  lemma {:induction false} LenConcat(s: string, t: string)
    ensures UTF16Len(s + t) == UTF16Len(s) + UTF16Len(t)
  {
    if s == "" {
      assert s + t == t;
    } else {
      LenConcat(s[1..], t);
      assert (s + t)[1..] == s[1..] + t;
    }
  }

  lemma LenPart(s: string, i: nat, j: nat)
    requires i <= j <= |s|
    ensures UTF16Len(s[i..j]) <= UTF16Len(s)
  {
    LenConcat(s[..i], s[i..j]);
    LenConcat(s[..j], s[j..]);
    assert s == s[..j] + s[j..] && s[..j] == s[..i] + s[i..j];
  }

  lemma LenTrimmed(s: string)
    ensures UTF16Len(TrimSpace(s)) <= UTF16Len(s)
  {
    TrimLeftSuffix(s);
    TrimRightPrefix(TrimLeft(s));
    var i := |s| - |TrimLeft(s)|;
    assert TrimSpace(s) == s[i..i + |TrimSpace(s)|];
    LenPart(s, i, i + |TrimSpace(s)|);
  }

  // ---------- truncation ----------

  /** The characters from the front that fit in the limit. */
  function Fitting(s: string, limit: int): string {
    if s == "" || |Units(s[0])| > limit then ""
    else [s[0]] + Fitting(s[1..], limit - |Units(s[0])|)
  }

  function Truncated(s: string, limit: int): string {
    if UTF16Len(s) <= limit then s else TrimSpace(Fitting(s, limit))
  }

  /** Fitting is the longest whole-character prefix within the limit. */
  lemma {:induction false} FittingLongest(s: string, limit: nat)
    ensures Fitting(s, limit) <= s && UTF16Len(Fitting(s, limit)) <= limit
    ensures forall k :: |Fitting(s, limit)| < k <= |s| ==> UTF16Len(s[..k]) > limit
  {
    if s != "" {
      if |Units(s[0])| <= limit {
        var rest := limit - |Units(s[0])|;
        FittingLongest(s[1..], rest);
        LenConcat([s[0]], Fitting(s[1..], rest));
        forall k | |Fitting(s, limit)| < k <= |s| ensures UTF16Len(s[..k]) > limit {
          assert s[..k] == [s[0]] + s[1..][..k - 1];
          LenConcat([s[0]], s[1..][..k - 1]);
        }
      } else {
        forall k | 0 < k <= |s| ensures UTF16Len(s[..k]) > limit {
          assert s[..k][0] == s[0];
        }
      }
    }
  }

  /** Truncation respects the limit, changes nothing that fits, and otherwise keeps the longest
      whole-character prefix within the limit, trimmed. */
  lemma TruncatedWithin(s: string, limit: nat)
    ensures UTF16Len(Truncated(s, limit)) <= limit
    ensures UTF16Len(s) <= limit <==> Truncated(s, limit) == s
    ensures UTF16Len(s) > limit ==>
              exists k :: 0 <= k < |s| && Truncated(s, limit) == TrimSpace(s[..k]) && UTF16Len(s[..k]) <= limit
                          && forall j :: k < j <= |s| ==> UTF16Len(s[..j]) > limit
  {
    FittingLongest(s, limit);
    LenTrimmed(Fitting(s, limit));
    if UTF16Len(s) > limit {
      var k := |Fitting(s, limit)|;
      assert Fitting(s, limit) == s[..k];
      assert s[..|s|] == s;
    }
  }

  /** One more character, if it fits. */
  lemma FittingStep(b: string, s: string, i: nat, room: int)
    requires i < |s|
    ensures var size := if s[i] as int > 0xFFFF then 2 else 1;
            && UTF16Len(b + [s[i]]) == UTF16Len(b) + size
            && b + Fitting(s[i..], room) == if size > room then b else (b + [s[i]]) + Fitting(s[i + 1..], room - size)
  {
    assert s[i..][0] == s[i] && s[i..][1..] == s[i + 1..];
    LenConcat(b, [s[i]]);
    assert Encode([s[i]]) == Units(s[i]) + [];
  }

  method TruncateUTF16(s: string, limit: int) returns (r: string)
    ensures r == Truncated(s, limit)
  {
    if UTF16Len(s) <= limit {
      return s;
    }
    var b, used := "", 0;
    assert s[0..] == s;
    for i := 0 to |s|
      invariant b + Fitting(s[i..], limit - used) == Fitting(s, limit)
      invariant used == UTF16Len(b)
    {
      var size := if s[i] as int > 0xFFFF then 2 else 1;
      FittingStep(b, s, i, limit - used);
      if used + size > limit {
        break;
      }
      b := b + [s[i]];
      used := used + size;
    }
    assert b == Fitting(s, limit);
    return TrimSpace(b);
  }

  // ---------- the card ----------

  /** What a card is made from; the size line is rendered elsewhere. */
  datatype Delivery = Delivery(header: string, listing: Listing, sizeLabel: string, reasons: seq<string>) {
    function Price(): string {
      match listing.priceAmount
      case Some(n) => Money.PriceLabel(listing.currency, n)
      case None => ""
    }

    function Expensas(): string {
      match listing.expensas
      case Some(n) => Money.ExpensasLabel(n) + " expensas"
      case None => ""
    }
  }

  function NonEmpty(line: string): seq<string> {
    if line == "" then [] else [line]
  }

  /** A title that is cut down to nothing still takes its line. */
  function TitleLine(title: string): seq<string> {
    if title == "" then [] else [Truncated(title, MAX_TITLE_ON_CARD)]
  }

  function Bulleted(reasons: seq<string>): seq<string> {
    seq(|reasons|, i requires 0 <= i < |reasons| => "· " + reasons[i])
  }

  /** Absent fields leave no blank line. */
  function FieldLines(d: Delivery): seq<string> {
    NonEmpty(d.header) + TitleLine(d.listing.title) + NonEmpty(d.Price()) +
    NonEmpty(d.sizeLabel) + NonEmpty(d.Expensas()) + NonEmpty(d.listing.location)
  }

  /** The lines above the link. */
  function Lines(d: Delivery): seq<string> {
    FieldLines(d) + Bulleted(d.reasons)
  }

  function FullText(d: Delivery): string {
    Join(Lines(d), "\n")
  }

  function WithLink(body: string, url: string): string {
    if body == "" then url else body + "\n" + url
  }

  function CaptionOf(d: Delivery): string {
    var url := d.listing.canonicalUrl;
    var budget := CAPTION_LIMIT - UTF16Len(url) - 1;
    if budget < 1 then Truncated(url, CAPTION_LIMIT)
    else WithLink(Truncated(FullText(d), budget), url)
  }

  predicate EndsWith(s: string, suffix: string) {
    |suffix| <= |s| && s[|s| - |suffix|..] == suffix
  }

  lemma LinkFits(body: string, url: string)
    ensures UTF16Len(WithLink(body, url)) == if body == "" then UTF16Len(url) else UTF16Len(body) + 1 + UTF16Len(url)
    ensures EndsWith(WithLink(body, url), url)
  {
    LenConcat(body + "\n", url);
    LenConcat(body, "\n");
  }

  lemma LinkedWithin(text: string, url: string)
    requires UTF16Len(url) + 2 <= CAPTION_LIMIT
    ensures var card := WithLink(Truncated(text, CAPTION_LIMIT - UTF16Len(url) - 1), url);
            UTF16Len(card) <= CAPTION_LIMIT && EndsWith(card, url)
  {
    var budget := CAPTION_LIMIT - UTF16Len(url) - 1;
    TruncatedWithin(text, budget);
    LinkFits(Truncated(text, budget), url);
  }

  /** Every card is within the limit and, whenever its link alone fits, ends with the whole link. */
  lemma CaptionBudget(d: Delivery)
    ensures UTF16Len(CaptionOf(d)) <= 1024
    ensures UTF16Len(d.listing.canonicalUrl) <= 1024 ==> EndsWith(CaptionOf(d), d.listing.canonicalUrl)
  {
    var url := d.listing.canonicalUrl;
    if UTF16Len(url) + 2 <= CAPTION_LIMIT {
      LinkedWithin(FullText(d), url);
    } else {
      TruncatedWithin(url, CAPTION_LIMIT);
      assert CaptionOf(d) == Truncated(url, CAPTION_LIMIT);
    }
  }

  /** With room for at least one unit beside the link, the text is cut only when it has to be: the card
      is the full text and the link exactly when those fit. Otherwise the text is the longest part
      of it that leaves room for the link, trimmed. */
  lemma CutOnlyIfNeeded(d: Delivery)
    requires UTF16Len(d.listing.canonicalUrl) + 2 <= 1024
    ensures CutRight(CaptionOf(d), FullText(d), d.listing.canonicalUrl)
  {
    TextCutRight(FullText(d), d.listing.canonicalUrl);
  }

  /** The card is the text and the link exactly when those fit, and otherwise cut to fit. */
  ghost predicate CutRight(card: string, text: string, url: string) {
    && (card == WithLink(text, url) <==> UTF16Len(WithLink(text, url)) <= 1024)
    && (UTF16Len(WithLink(text, url)) > 1024 ==> CutToFit(card, text, url))
  }

  lemma TextCutRight(text: string, url: string)
    requires UTF16Len(url) + 2 <= 1024
    ensures CutRight(WithLink(Truncated(text, 1024 - UTF16Len(url) - 1), url), text, url)
  {
    FullIff(text, url);
    if UTF16Len(WithLink(text, url)) > 1024 {
      LinkFits(text, url);
      TextCut(text, url);
    }
  }

  lemma FullIff(text: string, url: string)
    requires UTF16Len(url) + 2 <= 1024
    ensures WithLink(Truncated(text, 1024 - UTF16Len(url) - 1), url) == WithLink(text, url) <==> UTF16Len(WithLink(text, url)) <= 1024
  {
    var budget := 1024 - UTF16Len(url) - 1;
    LinkFits(text, url);
    LinkFits(Truncated(text, budget), url);
    TruncatedWithin(text, budget);
  }

  /** The card is the longest part of the text that leaves room for the link, trimmed, and the link. */
  ghost predicate CutToFit(card: string, text: string, url: string) {
    exists k :: 0 <= k < |text| && card == WithLink(TrimSpace(text[..k]), url)
                && UTF16Len(text[..k]) + 1 + UTF16Len(url) <= 1024
                && forall j :: k < j <= |text| ==> UTF16Len(text[..j]) + 1 + UTF16Len(url) > 1024
  }

  lemma TextCut(text: string, url: string)
    requires UTF16Len(url) + 2 <= 1024 && UTF16Len(text) + 1 + UTF16Len(url) > 1024
    ensures CutToFit(WithLink(Truncated(text, 1024 - UTF16Len(url) - 1), url), text, url)
  {
    TruncatedWithin(text, 1024 - UTF16Len(url) - 1);
  }

  /** Without that room the card is the link, cut if it is too long itself. */
  lemma LinkOnly(d: Delivery)
    requires UTF16Len(d.listing.canonicalUrl) + 2 > 1024
    ensures UTF16Len(d.listing.canonicalUrl) <= 1024 ==> CaptionOf(d) == d.listing.canonicalUrl
    ensures UTF16Len(d.listing.canonicalUrl) > 1024 ==> CaptionOf(d) == Truncated(d.listing.canonicalUrl, 1024)
  {
    TruncatedWithin(d.listing.canonicalUrl, CAPTION_LIMIT);
  }

  /** The non-empty ones of some fields, in order. */
  function Given(fields: seq<string>): seq<string> {
    if fields == [] then []
    else (if fields[0] == "" then [] else [fields[0]]) + Given(fields[1..])
  }

  /** The lines of a card are its non-empty fields in the order of the card: header, title, price, size,
      expenses and place, and then the reasons. A title cut down to nothing leaves an empty line. */
  lemma CardLines(d: Delivery)
    ensures var l := d.listing;
            var title := if l.title == "" then "" else Truncated(l.title, 100);
            var price := if l.priceAmount == None then "" else Money.PriceLabel(l.currency, l.priceAmount.value);
            var expenses := if l.expensas == None then "" else "$ " + Money.Formatted(l.expensas.value) + " expensas";
            && |Lines(d)| >= |d.reasons|
            && (forall i :: 0 <= i < |d.reasons| ==> Lines(d)[|Lines(d)| - |d.reasons| + i] == "· " + d.reasons[i])
            && (l.title == "" || title != "" ==>
                  Lines(d)[..|Lines(d)| - |d.reasons|] == Given([d.header, title, price, d.sizeLabel, expenses, l.location]))
            && (l.title != "" && title == "" ==>
                  Lines(d)[..|Lines(d)| - |d.reasons|] == Given([d.header]) + [""] + Given([price, d.sizeLabel, expenses, l.location]))
  {
    assert Lines(d)[..|Lines(d)| - |d.reasons|] == FieldLines(d);
    FieldsGiven(d);
  }

  lemma FieldsGiven(d: Delivery)
    ensures var title := if d.listing.title == "" then "" else Truncated(d.listing.title, 100);
            var rest := [d.Price(), d.sizeLabel, d.Expensas(), d.listing.location];
            && (d.listing.title == "" || title != "" ==> FieldLines(d) == Given([d.header, title] + rest))
            && (d.listing.title != "" && title == "" ==> FieldLines(d) == Given([d.header]) + [""] + Given(rest))
  {
    var title := if d.listing.title == "" then "" else Truncated(d.listing.title, 100);
    var rest := [d.Price(), d.sizeLabel, d.Expensas(), d.listing.location];
    GivenOne(d.header, []);
    assert [d.header] + [] == [d.header];
    GivenFour(d.Price(), d.sizeLabel, d.Expensas(), d.listing.location);
    GivenOne(title, rest);
    GivenOne(d.header, [title] + rest);
    assert [d.header] + ([title] + rest) == [d.header, title] + rest;
    FieldsJoined(NonEmpty(d.header), TitleLine(d.listing.title), NonEmpty(d.Price()), NonEmpty(d.sizeLabel),
                 NonEmpty(d.Expensas()), NonEmpty(d.listing.location));
  }

  lemma FieldsJoined(a: seq<string>, b: seq<string>, c: seq<string>, d: seq<string>, e: seq<string>, f: seq<string>)
    ensures a + b + c + d + e + f == a + (b + (c + d + e + f))
    ensures a + (b + (c + d + e + f)) == a + b + (c + d + e + f)
  {
  }

  lemma GivenOne(x: string, rest: seq<string>)
    ensures Given([x] + rest) == NonEmpty(x) + Given(rest)
  {
    assert ([x] + rest)[1..] == rest;
  }

  lemma GivenFour(a: string, b: string, c: string, d: string)
    ensures Given([a, b, c, d]) == NonEmpty(a) + NonEmpty(b) + NonEmpty(c) + NonEmpty(d)
  {
    GivenTwo(a, b);
    GivenTwo(c, d);
    GivenJoin([a, b], [c, d]);
    assert [a, b] + [c, d] == [a, b, c, d];
    Regroup(NonEmpty(a) + NonEmpty(b), NonEmpty(c), NonEmpty(d));
  }

  lemma Regroup(x: seq<string>, y: seq<string>, z: seq<string>)
    ensures x + (y + z) == x + y + z
  {
  }

  lemma {:induction false} GivenJoin(s: seq<string>, t: seq<string>)
    ensures Given(s + t) == Given(s) + Given(t)
  {
    if s == [] {
      assert s + t == t;
    } else {
      GivenJoin(s[1..], t);
      assert (s + t)[1..] == s[1..] + t;
      Regroup(NonEmpty(s[0]), Given(s[1..]), Given(t));
    }
  }

  lemma GivenTwo(a: string, b: string)
    ensures Given([a, b]) == NonEmpty(a) + NonEmpty(b)
  {
    GivenOne(b, []);
    GivenOne(a, [b]);
    assert [b] + [] == [b] && [a] + [b] == [a, b];
  }

  /** The text splits into exactly these lines, as long as none holds a line break. */
  lemma TextLines(d: Delivery)
    requires Lines(d) != [] && forall i :: 0 <= i < |Lines(d)| ==> '\n' !in Lines(d)[i]
    ensures Split(FullText(d), '\n') == Lines(d)
  {
    JoinSplits(Lines(d), '\n');
  }

  method AppendLine(head: seq<string>, line: string) returns (more: seq<string>)
    ensures more == head + NonEmpty(line)
  {
    more := head;
    if line != "" {
      more := more + [line];
    }
  }

  method CollectFields(d: Delivery) returns (head: seq<string>)
    ensures head == FieldLines(d)
  {
    head := AppendLine([], d.header);
    assert head == NonEmpty(d.header);
    if d.listing.title != "" {
      var title := TruncateUTF16(d.listing.title, MAX_TITLE_ON_CARD);
      head := head + [title];
    }
    assert head == NonEmpty(d.header) + TitleLine(d.listing.title);
    head := AppendLine(head, d.Price());
    head := AppendLine(head, d.sizeLabel);
    head := AppendLine(head, d.Expensas());
    head := AppendLine(head, d.listing.location);
  }

  method AppendReasons(fields: seq<string>, reasons: seq<string>) returns (head: seq<string>)
    ensures head == fields + Bulleted(reasons)
  {
    head := fields;
    for i := 0 to |reasons|
      invariant head == fields + Bulleted(reasons)[..i]
    {
      head := head + ["· " + reasons[i]];
    }
    assert Bulleted(reasons)[..|reasons|] == Bulleted(reasons);
  }

  method RenderCaption(d: Delivery) returns (text: string)
    ensures text == CaptionOf(d)
  {
    var head := CollectFields(d);
    head := AppendReasons(head, d.reasons);
    var url := d.listing.canonicalUrl;
    var budget := CAPTION_LIMIT - UTF16Len(url) - 1;
    if budget < 1 {
      text := TruncateUTF16(url, CAPTION_LIMIT);
      return;
    }
    var body := TruncateUTF16(Join(head, "\n"), budget);
    if body == "" {
      return url;
    }
    return body + "\n" + url;
  }

  // ---------- the rating note ----------

  const NOTE_MARK := '✓'

  function RatingNote(verdict: int): string {
    if verdict == 1 then "✓ te gustó" else "✗ no te gustó"
  }

  /** The caption a rating writes on the card, if any. */
  function Confirmed(caption: string, verdict: int): Option<string> {
    var noted := caption + "\n\n" + RatingNote(verdict);
    if caption == "" || NOTE_MARK in caption || UTF16Len(noted) > CAPTION_LIMIT then None else Some(noted)
  }

  /** The edit keeps the old caption whole, never exceeds the limit, and is left out exactly when
      there is no caption, it is marked already or the note does not fit. */
  lemma NoteKeepsCard(caption: string, verdict: int)
    ensures var r := Confirmed(caption, verdict);
            var note := if verdict == 1 then "✓ te gustó" else "✗ no te gustó";
            && (r.Some? ==> r.value == caption + "\n\n" + note && UTF16Len(r.value) <= 1024)
            && (r.None? <==> caption == "" || '✓' in caption || UTF16Len(caption) + 2 + UTF16Len(note) > 1024)
  {
    LenConcat(caption + "\n\n", RatingNote(verdict));
    LenConcat(caption, "\n\n");
    assert UTF16Len("\n\n") == 2;
  }

  /** The mark stops a second note only after a like: the dislike note carries another mark, so
      after it only the limit does. */
  lemma SecondNote(caption: string, verdict: int, again: int)
    requires Confirmed(caption, verdict).Some?
    ensures var noted := Confirmed(caption, verdict).value;
            && (verdict == 1 ==> Confirmed(noted, again) == None)
            && (verdict != 1 ==> (Confirmed(noted, again).Some? <==>
                  UTF16Len(noted) + 2 + UTF16Len(RatingNote(again)) <= CAPTION_LIMIT))
  {
    var noted := Confirmed(caption, verdict).value;
    NoteKeepsCard(noted, again);
    if verdict == 1 {
      assert RatingNote(verdict)[0] == NOTE_MARK;
      assert noted[|caption| + 2] == NOTE_MARK;
    } else {
      assert NOTE_MARK !in RatingNote(verdict) && NOTE_MARK !in "\n\n";
    }
  }
}
