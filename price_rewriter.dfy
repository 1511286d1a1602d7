/**
 * The caption price rewriter: every `<N> for <M>` quantity price in a
 * caption has its first number N raised, by 3 below 50 and by 200 from 50
 * on, and is written back as `<N'> for <M>`. The rewrite is one `re.sub`
 * over the caption; here it is a left-to-right scan into pieces (kept
 * characters and matches) followed by joining their outputs.
 */
module PriceRewriter {
  import opened Options
  import opened CharClasses
  import opened Decimal
  import opened PricePattern
  import opened Sequences

  /** The new first number: +3 below 50, +200 from 50 on; always at least 3 more. */
  function Adjust(before: nat): (after: nat)
    ensures after >= before + 3
  {
    if before < 50 then before + 3 else before + 200
  }

  /** The offset is 3 exactly for numbers below 50 and 200 exactly for 50 and above. */
  lemma AdjustOffset(x: nat)
    ensures Adjust(x) - x == 3 <==> x < 50
    ensures Adjust(x) - x == 200 <==> x >= 50
  {
  }

  /**
   * Raising prices keeps their order: the jump at the threshold (49 becomes
   * 52, 50 becomes 250) never lets a smaller number overtake a larger one,
   * so different first numbers stay different.
   */
  lemma AdjustIncreasing(x: nat, y: nat)
    requires x < y
    ensures Adjust(x) < Adjust(y)
  {
  }

  /**
   * The replacement callback: int() of group 1, adjusted, then
   * `"{before} for {group 2}"`; if int() raised, the matched text itself.
   */
  function Replacement(m: Match): string {
    match ParseInt(m.first)
    case Some(before) => ToDecimal(Adjust(before)) + " for " + m.second
    case None => Text(m)
  }

  /** A step of the scan: a character copied as it is, or a match to replace. */
  datatype Piece = Kept(c: char) | Replaced(m: Match)

  /** The input text a piece covers. */
  function Consumed(p: Piece): string {
    match p
    case Kept(c) => [c]
    case Replaced(m) => Text(m)
  }

  /** The output text a piece produces. */
  function Produced(p: Piece): string {
    match p
    case Kept(c) => [c]
    case Replaced(m) => Replacement(m)
  }

  /**
   * re.sub's scan: try the pattern at the current position; on a match,
   * emit it and resume right after it, else keep one character and move on.
   */
  function Scan(s: string): seq<Piece>
    decreases |s|
  {
    if s == [] then []
    else
      match MatchAt(s)
      case Some(m) => [Replaced(m)] + Scan(s[|Text(m)|..])
      case None => [Kept(s[0])] + Scan(s[1..])
  }

  function Source(ps: seq<Piece>): string {
    if ps == [] then [] else Consumed(ps[0]) + Source(ps[1..])
  }

  function Output(ps: seq<Piece>): string {
    if ps == [] then [] else Produced(ps[0]) + Output(ps[1..])
  }

  /** adjust_prices(text): the outputs of the scan's pieces, joined in order. */
  function AdjustPrices(text: string): string {
    Output(Scan(text))
  }

  /** No match of the price pattern starts anywhere in `s`. */
  predicate NoMatchIn(s: string) {
    forall i :: 0 <= i < |s| ==> MatchAt(s[i..]).None?
  }

  /**
   * The first piece of the scan covers a non-empty prefix of the input, and
   * the remaining pieces are the scan of what follows it.
   */
  lemma FirstPiece(s: string)
    requires s != []
    ensures Scan(s)[0].Kept? ==> Scan(s)[0].c == s[0] && MatchAt(s).None?
    ensures Scan(s)[0].Replaced? ==> MatchAt(s) == Some(Scan(s)[0].m)
    ensures var w := |Consumed(Scan(s)[0])|;
      && 1 <= w <= |s| && s[..w] == Consumed(Scan(s)[0]) && Scan(s)[1..] == Scan(s[w..])
  {
    var ps := Scan(s);
    if MatchAt(s).Some? {
      assert StartsWith(s, Text(MatchAt(s).value)) by {
        MatchAtSound(s);
      }
    }
    assert ps[1..] == Scan(s[|Consumed(ps[0])|..]);
  }

  /** Where no match starts, the first character is kept and the rewrite goes on after it. */
  lemma KeepStep(s: string)
    requires s != [] && MatchAt(s).None?
    ensures AdjustPrices(s) == [s[0]] + AdjustPrices(s[1..])
  {
    var ps := Scan(s);
    assert ps[1..] == Scan(s[1..]);
  }

  /** Where a match starts, it is replaced and the rewrite resumes right after it. */
  lemma ReplaceStep(s: string)
    requires MatchAt(s).Some?
    ensures AdjustPrices(s) == Replacement(MatchAt(s).value) + AdjustPrices(s[|Text(MatchAt(s).value)|..])
  {
    var ps := Scan(s);
    assert ps[1..] == Scan(s[|Text(MatchAt(s).value)|..]);
  }

  /**
   * The except branch is unreachable: group 1 is always a string of digits,
   * so a match is always replaced by the adjusted number, exactly " for ",
   * and group 2 unchanged.
   */
  lemma ReplacementOfMatch(m: Match)
    requires WellFormed(m)
    ensures ParseInt(m.first) == Some(Value(m.first))
    ensures Replacement(m) == ToDecimal(Adjust(Value(m.first))) + " for " + m.second
  {
  }

  /** The pieces of the scan cover the input exactly, in order and without overlap. */
  lemma {:induction false} ScanCoversInput(s: string)
    ensures Source(Scan(s)) == s
    decreases |s|
  {
    if s != [] {
      var ps := Scan(s);
      FirstPiece(s);
      var w := |Consumed(ps[0])|;
      ScanCoversInput(s[w..]);
      calc {
        Source(ps);
        Consumed(ps[0]) + Source(ps[1..]);
        s[..w] + Source(Scan(s[w..]));
        s[..w] + s[w..];
        { TakeDrop(s, w); }
        s;
      }
    }
  }

  /** Where the `k`-th piece starts in the input: the total length the pieces before it consume. */
  function Offset(ps: seq<Piece>, k: nat): nat
    requires k <= |ps|
  {
    if k == 0 then 0 else |Consumed(ps[0])| + Offset(ps[1..], k - 1)
  }

  /**
   * The scan never looks back: the pieces from the `k`-th on are the scan
   * of the input from where the `k`-th piece starts.
   */
  lemma {:induction false} ScanResumes(s: string, k: nat)
    requires k <= |Scan(s)|
    ensures Offset(Scan(s), k) <= |s| && Scan(s)[k..] == Scan(s[Offset(Scan(s), k)..])
    decreases |s|
  {
    if k == 0 {
      assert s[0..] == s;
    } else {
      var ps := Scan(s);
      FirstPiece(s);
      var w := |Consumed(ps[0])|;
      ScanResumes(s[w..], k - 1);
      var p' := Offset(Scan(s[w..]), k - 1);
      assert Offset(ps, k) == w + p';
      calc {
        ps[k..];
        { DropDrop(ps, 1, k - 1); }
        ps[1..][k - 1..];
        Scan(s[w..])[k - 1..];
        Scan(s[w..][p'..]);
        { DropDrop(s, w, p'); }
        Scan(s[w + p'..]);
      }
    }
  }

  /**
   * Each piece sits where the pieces before it end: a kept character is
   * the input character there and no match starts there, and a replaced
   * match is the one the pattern finds there. So matches are found left to
   * right, the leftmost first, and the scan never looks back into one.
   */
  lemma ScanFindsLeftmostMatches(s: string, k: nat)
    requires k < |Scan(s)|
    ensures var p := Offset(Scan(s), k);
      && p < |s|
      && (Scan(s)[k].Kept? ==> Scan(s)[k].c == s[p] && MatchAt(s[p..]).None?)
      && (Scan(s)[k].Replaced? ==> MatchAt(s[p..]) == Some(Scan(s)[k].m))
  {
    ScanResumes(s, k);
    var p := Offset(Scan(s), k);
    assert Scan(s)[k] == Scan(s[p..])[0];
    FirstPiece(s[p..]);
  }

  /** Text with no match anywhere comes back unchanged. */
  lemma {:induction false} NoMatchUnchanged(s: string)
    requires NoMatchIn(s)
    ensures AdjustPrices(s) == s
    decreases |s|
  {
    if s != [] {
      assert s[0..] == s;
      KeepStep(s);
      forall i | 0 <= i < |s| - 1
        ensures MatchAt(s[1..][i..]).None?
      {
        DropDrop(s, 1, i);
      }
      NoMatchUnchanged(s[1..]);
    }
  }

  /**
   * A match at the front is rewritten to the adjusted group 1 followed by
   * ` for `, group 2 and the rewrite of what follows the match.
   */
  lemma AdjustPricesAtMatch(s: string)
    requires MatchAt(s).Some?
    ensures All(MatchAt(s).value.first, Digit)
    ensures var m := MatchAt(s).value;
      AdjustPrices(s) == ToDecimal(Adjust(Value(m.first))) + " for " + m.second + AdjustPrices(s[|Text(m)|..])
  {
    var m := MatchAt(s).value;
    var r := AdjustPrices(s[|Text(m)|..]);
    assert AdjustPrices(s) == Replacement(m) + r by {
      ReplaceStep(s);
    }
    assert Replacement(m) == ToDecimal(Adjust(Value(m.first))) + " for " + m.second by {
      MatchAtSound(s);
      ReplacementOfMatch(m);
    }
  }

  /**
   * A match at the front changes the text: the output starts with the
   * digit run of the adjusted number, which differs from group 1.
   */
  lemma MatchAtFrontChanges(s: string)
    requires MatchAt(s).Some?
    ensures AdjustPrices(s) != s
  {
    var m := MatchAt(s).value;
    AdjustPricesAtMatch(s);
    var dec := ToDecimal(Adjust(Value(m.first)));
    var out := AdjustPrices(s);
    assert out[..SpanFrom(out, 0, Digit)] == dec by {
      assert out[..|dec|] == dec && out[|dec|] == ' ';
      SpanOfPrefix(out, dec, Digit);
    }
    assert s[..SpanFrom(s, 0, Digit)] == m.first by {
      MatchAtSound(s);
      SlicesOfText(s, m);
    }
    assert dec != m.first by {
      MatchAtSound(s);
      ReplacementOfMatch(m);
    }
  }

  /** A match anywhere in the text changes it. */
  lemma {:induction false} MatchChanges(s: string, i: nat)
    requires i < |s| && MatchAt(s[i..]).Some?
    ensures AdjustPrices(s) != s
    decreases i
  {
    if MatchAt(s).Some? {
      MatchAtFrontChanges(s);
    } else {
      assert s[0..] == s;
      DropDrop(s, 1, i - 1);
      MatchChanges(s[1..], i - 1);
      KeptCharChanges(s);
    }
  }

  /** A kept first character passes on a change in the rewrite of the rest. */
  lemma KeptCharChanges(s: string)
    requires s != [] && MatchAt(s).None? && AdjustPrices(s[1..]) != s[1..]
    ensures AdjustPrices(s) != s
  {
    KeepStep(s);
    var rest := AdjustPrices(s[1..]);
    assert ([s[0]] + rest)[1..] == rest;
  }

  /**
   * The rewrite leaves a text unchanged exactly when no price matches in
   * it: a one-digit first number, `For`, or a missing space after `for`
   * leave a caption as it is, and every real match changes it.
   */
  lemma UnchangedIffNoMatch(s: string)
    ensures AdjustPrices(s) == s <==> NoMatchIn(s)
  {
    if NoMatchIn(s) {
      NoMatchUnchanged(s);
    } else {
      var i :| 0 <= i < |s| && MatchAt(s[i..]).Some?;
      MatchChanges(s, i);
    }
  }

  /**
   * A price at the front of the text is rewritten to the adjusted first
   * number, a single space, `for`, a single space and the unchanged second
   * number, and the scan resumes right after the whole second number.
   */
  lemma RewriteAtFront(m: Match, rest: string)
    requires WellFormed(m) && RunStopsAt(rest, 0, Digit)
    ensures AdjustPrices(Text(m) + rest)
      == ToDecimal(Adjust(Value(m.first))) + " for " + m.second + AdjustPrices(rest)
  {
    var s := Text(m) + rest;
    assert s[..|Text(m)|] == Text(m);
    assert |Text(m)| < |s| ==> s[|Text(m)|] == rest[0];
    MatchAtComplete(s, m);
    AdjustPricesAtMatch(s);
    assert s[|Text(m)|..] == rest;
  }

  /**
   * Digits in front of a text that starts with five digits are kept as
   * they are: at each of them the digit run is longer than five, so the
   * pattern cannot start there.
   */
  lemma {:induction false} LeadingDigitsKept(lead: string, tail: string)
    requires All(lead, Digit) && SpanFrom(tail, 0, Digit) >= 5
    ensures AdjustPrices(lead + tail) == lead + AdjustPrices(tail)
    decreases |lead|
  {
    if lead == [] {
      assert lead + tail == tail;
    } else {
      var s := lead + tail;
      var t := lead[1..] + tail;
      assert MatchAt(s).None? by {
        SpanOfRunBefore(lead, tail, Digit);
      }
      assert s[0] == lead[0] && s[1..] == t;
      KeepStep(s);
      LeadingDigitsKept(lead[1..], tail);
      Associative([lead[0]], lead[1..], AdjustPrices(tail));
      assert [lead[0]] + lead[1..] == lead;
    }
  }

  /**
   * A digit run longer than five in front of ` for ` is matched at its
   * last five digits only: the earlier digits stay as they are and only
   * the last five are adjusted.
   */
  lemma LongRunKeepsLeadingDigits(lead: string, m: Match, rest: string)
    requires All(lead, Digit) && WellFormed(m) && |m.first| == 5 && RunStopsAt(rest, 0, Digit)
    ensures AdjustPrices(lead + (Text(m) + rest))
      == lead + (ToDecimal(Adjust(Value(m.first))) + " for " + m.second + AdjustPrices(rest))
  {
    var tail := Text(m) + rest;
    assert SpanFrom(tail, 0, Digit) >= 5 by {
      assert tail[0..5] == m.first;
      SpanFromCovers(tail, 0, 5, Digit);
    }
    LeadingDigitsKept(lead, tail);
    RewriteAtFront(m, rest);
  }
}
