/** The data behind the two rating buttons of a card. */
module Callbacks {
  import opened Basics
  import opened Numerals

  predicate HasPrefix(s: string, prefix: string) {
    prefix <= s
  }

  function TrimPrefix(s: string, prefix: string): string {
    if HasPrefix(s, prefix) then s[|prefix|..] else s
  }

  /** What the keyboard of a card carries: 1 is a like, 0 a dislike. */
  function Encode(verdict: int, listing: int64): string {
    (if verdict == 1 then "u:" else "d:") + Signed(listing)
  }

  /** What the handler reads: the verdict from the prefix, the row id after both prefixes have been
      taken off. */
  function Decode(data: string): Option<(int, int64)> {
    if !HasPrefix(data, "u:") && !HasPrefix(data, "d:") then None
    else
      match ParseInt64(TrimPrefix(TrimPrefix(data, "u:"), "d:"))
      case None => None
      case Some(id) => Some((if HasPrefix(data, "u:") then 1 else 0, id))
  }

  /** Every button is read as what it was made for. */
  lemma ButtonRoundTrip(verdict: int, listing: int64)
    requires verdict == 0 || verdict == 1
    ensures Decode(Encode(verdict, listing)) == Some((verdict, listing))
  {
    var data := Encode(verdict, listing);
    assert data[2..] == Signed(listing);
    ParseSigned(listing);
    SignedShape(listing);
    assert Signed(listing)[0] != 'd';
    if verdict == 1 {
      assert HasPrefix(data, "u:") && !HasPrefix(Signed(listing), "d:");
    } else {
      assert HasPrefix(data, "d:") && !HasPrefix(data, "u:") by { assert data[0] == 'd'; }
    }
  }

  /** The data stays within the 64 bytes Telegram accepts; every character here is one byte. */
  lemma ButtonFits(verdict: int, listing: int64)
    ensures |Encode(verdict, listing)| <= 22 < 64
    ensures Encode(verdict, listing)[..2] == if verdict == 1 then "u:" else "d:"
  {
    SignedLength(listing);
  }

  /** Two different buttons never carry the same data. */
  lemma ButtonsDiffer(verdict: int, listing: int64, verdict2: int, listing2: int64)
    requires verdict in {0, 1} && verdict2 in {0, 1}
    requires Encode(verdict, listing) == Encode(verdict2, listing2)
    ensures verdict == verdict2 && listing == listing2
  {
    ButtonRoundTrip(verdict, listing);
    ButtonRoundTrip(verdict2, listing2);
  }

  /** The two prefixes are taken off in turn, so the reader also accepts a like followed by the
      other prefix, as a like; the mirror image is refused. */
  lemma DoublePrefix(text: string)
    requires !HasPrefix(text, "d:")
    ensures Decode("u:d:" + text) == Decode("u:" + text)
    ensures Decode("d:u:" + text) == None
  {
    assert ("u:d:" + text)[2..] == "d:" + text && ("d:" + text)[2..] == text;
    assert ("u:" + text)[2..] == text;
    assert ("d:u:" + text)[2..] == "u:" + text;
    assert !IsDigit(("u:" + text)[0]);
  }
}
