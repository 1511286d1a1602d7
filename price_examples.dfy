/**
 * Concrete captions, each rewritten through the general lemmas about the
 * scan rather than by unfolding it. Each example is split into the facts
 * about its literal pieces (shape and numbers) and the rewrite itself.
 */
module PriceExamples {
  import opened CharClasses
  import opened Decimal
  import opened PricePattern
  import opened PriceRewriter

  /** The numeral `s` denotes `n` and is written back as itself. */
  lemma Numeral(s: string, n: nat)
    requires Canonical(s) && Value(s) == n
    ensures ToDecimal(n) == s
  {
    DecimalOfCanonical(s);
  }

  /**
   * A price followed by more text: the price is rewritten to its new first
   * number, ` for ` and its second number, and the rewrite goes on after it.
   */
  lemma PriceThen(m: Match, rest: string, before: nat, newFirst: string, restOut: string,
                  caption: string, expected: string)
    requires WellFormed(m) && RunStopsAt(rest, 0, Digit) && caption == Text(m) + rest
    requires Value(m.first) == before && ToDecimal(Adjust(before)) == newFirst
    requires AdjustPrices(rest) == restOut && expected == newFirst + " for " + m.second + restOut
    ensures AdjustPrices(caption) == expected
  {
    RewriteAtFront(m, rest);
  }

  /** A caption that is exactly one price. */
  lemma OnePrice(m: Match, before: nat, newFirst: string, caption: string, expected: string)
    requires WellFormed(m) && caption == Text(m)
    requires Value(m.first) == before && ToDecimal(Adjust(before)) == newFirst
    requires expected == newFirst + " for " + m.second
    ensures AdjustPrices(caption) == expected
  {
    PriceThen(m, "", before, newFirst, "", Text(m) + "", expected + "");
    assert Text(m) + "" == caption && expected + "" == expected;
  }

  /** A character where no price starts is copied, and the rewrite goes on after it. */
  lemma KeptChar(c: char, rest: string, restOut: string, caption: string, expected: string)
    requires caption == [c] + rest && MatchAt(caption).None?
    requires AdjustPrices(rest) == restOut && expected == [c] + restOut
    ensures AdjustPrices(caption) == expected
  {
    KeepStep(caption);
    assert caption[1..] == rest;
  }

  /**
   * A digit run longer than five in front of ` for `: the digits before
   * its last five are kept and the last five are rewritten as a price.
   */
  lemma LongRunPrice(lead: string, m: Match, before: nat, newFirst: string, caption: string, expected: string)
    requires All(lead, Digit) && WellFormed(m) && |m.first| == 5 && caption == lead + Text(m)
    requires Value(m.first) == before && ToDecimal(Adjust(before)) == newFirst
    requires expected == lead + newFirst + " for " + m.second
    ensures AdjustPrices(caption) == expected
  {
    LongRunKeepsLeadingDigits(lead, m, "");
    assert Text(m) + "" == Text(m);
    assert newFirst + " for " + m.second + AdjustPrices("") == newFirst + " for " + m.second;
  }


  /** The caption of BelowThreshold is one price of the pattern's shape. */
  lemma BelowThresholdShape()
    ensures WellFormed(Match("49", " ", " ", "2")) && Text(Match("49", " ", " ", "2")) == "49 for 2"
  {
  }

  /** The numbers of BelowThreshold: 49 is read and 52 is written back. */
  lemma BelowThresholdNumbers()
    ensures Value("49") == 49 && ToDecimal(Adjust(49)) == "52"
    ensures "52" + " for " + "2" == "52 for 2"
  {
    Numeral("52", 52);
  }

  /** Just below the threshold, three is added. */
  lemma BelowThreshold()
    ensures AdjustPrices("49 for 2") == "52 for 2"
  {
    BelowThresholdShape();
    BelowThresholdNumbers();
    OnePrice(Match("49", " ", " ", "2"), 49, "52", "49 for 2", "52 for 2");
  }

  /** The caption of AtThreshold is one price of the pattern's shape. */
  lemma AtThresholdShape()
    ensures WellFormed(Match("50", " ", " ", "2")) && Text(Match("50", " ", " ", "2")) == "50 for 2"
  {
  }

  /** The numbers of AtThreshold: 50 is read and 250 is written back. */
  lemma AtThresholdNumbers()
    ensures Value("50") == 50 && ToDecimal(Adjust(50)) == "250"
    ensures "250" + " for " + "2" == "250 for 2"
  {
    ValueAppend("25", '0');
    assert "25" + ['0'] == "250";
    Numeral("250", 250);
  }

  /** At the threshold itself, two hundred is added. */
  lemma AtThreshold()
    ensures AdjustPrices("50 for 2") == "250 for 2"
  {
    AtThresholdShape();
    AtThresholdNumbers();
    OnePrice(Match("50", " ", " ", "2"), 50, "250", "50 for 2", "250 for 2");
  }

  /** The caption of LeadingZeroDropped is one price of the pattern's shape. */
  lemma LeadingZeroDroppedShape()
    ensures WellFormed(Match("07", " ", " ", "3")) && Text(Match("07", " ", " ", "3")) == "07 for 3"
  {
  }

  /** The numbers of LeadingZeroDropped: 7 is read and 10 is written back. */
  lemma LeadingZeroDroppedNumbers()
    ensures Value("07") == 7 && ToDecimal(Adjust(7)) == "10"
    ensures "10" + " for " + "3" == "10 for 3"
  {
    Numeral("10", 10);
  }

  /** A leading zero is dropped: "07" reads as 7 and 10 is written back. */
  lemma LeadingZeroDropped()
    ensures AdjustPrices("07 for 3") == "10 for 3"
  {
    LeadingZeroDroppedShape();
    LeadingZeroDroppedNumbers();
    OnePrice(Match("07", " ", " ", "3"), 7, "10", "07 for 3", "10 for 3");
  }

  /** The caption of WhitespaceNormalised is one price of the pattern's shape. */
  lemma WhitespaceNormalisedShape()
    ensures WellFormed(Match("12", "  ", "\t", "3")) && Text(Match("12", "  ", "\t", "3")) == "12  for\t3"
  {
  }

  /** The numbers of WhitespaceNormalised: 12 is read and 15 is written back. */
  lemma WhitespaceNormalisedNumbers()
    ensures Value("12") == 12 && ToDecimal(Adjust(12)) == "15"
    ensures "15" + " for " + "3" == "15 for 3"
  {
    Numeral("15", 15);
  }

  /** Whitespace runs of any kind around `for` come back as single spaces. */
  lemma WhitespaceNormalised()
    ensures AdjustPrices("12  for\t3") == "15 for 3"
  {
    WhitespaceNormalisedShape();
    WhitespaceNormalisedNumbers();
    OnePrice(Match("12", "  ", "\t", "3"), 12, "15", "12  for\t3", "15 for 3");
  }

  /** The caption of SixDigitRun: a digit, then a price whose group 1 has five digits. */
  lemma SixDigitRunShape()
    ensures All("1", Digit) && WellFormed(Match("23456", " ", " ", "7"))
    ensures "1" + Text(Match("23456", " ", " ", "7")) == "123456 for 7"
  {
  }

  /** Group 1 of SixDigitRun reads as 23456. */
  lemma SixDigitRunRead()
    ensures Value("23456") == 23456
  {
    ValueAppend("23", '4');
    assert "23" + ['4'] == "234";
    ValueAppend("234", '5');
    assert "234" + ['5'] == "2345";
    ValueAppend("2345", '6');
    assert "2345" + ['6'] == "23456";
  }

  /** The numbers of SixDigitRun: 23456 is read and 23656 is written back. */
  lemma SixDigitRunNumbers()
    ensures Value("23456") == 23456 && ToDecimal(Adjust(23456)) == "23656"
  {
    SixDigitRunRead();
    ValueAppend("23", '6');
    assert "23" + ['6'] == "236";
    ValueAppend("236", '5');
    assert "236" + ['5'] == "2365";
    ValueAppend("2365", '6');
    assert "2365" + ['6'] == "23656";
    Numeral("23656", 23656);
  }

  /** Of a six-digit run only the last five digits are the first number. */
  lemma SixDigitRun()
    ensures AdjustPrices("123456 for 7") == "123656 for 7"
  {
    SixDigitRunShape();
    SixDigitRunNumbers();
    assert "1" + "23656" + " for " + "7" == "123656 for 7";
    LongRunPrice("1", Match("23456", " ", " ", "7"), 23456, "23656", "123456 for 7", "123656 for 7");
  }

  /** The caption of SecondPrice is one price of the pattern's shape. */
  lemma SecondPriceShape()
    ensures WellFormed(Match("60", " ", " ", "5")) && Text(Match("60", " ", " ", "5")) == "60 for 5"
  {
  }

  /** The numbers of SecondPrice: 60 is read and 260 is written back. */
  lemma SecondPriceNumbers()
    ensures Value("60") == 60 && ToDecimal(Adjust(60)) == "260"
    ensures "260" + " for " + "5" == "260 for 5"
  {
    ValueAppend("26", '0');
    assert "26" + ['0'] == "260";
    Numeral("260", 260);
  }

  /** The second price of TwoPrices on its own. */
  lemma SecondPrice()
    ensures AdjustPrices("60 for 5") == "260 for 5"
  {
    SecondPriceShape();
    SecondPriceNumbers();
    OnePrice(Match("60", " ", " ", "5"), 60, "260", "60 for 5", "260 for 5");
  }

  /** No price starts at the front of " 60 for 5". */
  lemma SpaceBeforeSecondPriceFacts()
    ensures " 60 for 5" == [' '] + "60 for 5" && MatchAt(" 60 for 5").None?
    ensures " 260 for 5" == [' '] + "260 for 5"
  {
  }

  /** The space before the second price of TwoPrices is kept. */
  lemma SpaceBeforeSecondPrice()
    ensures AdjustPrices(" 60 for 5") == " 260 for 5"
  {
    SecondPrice();
    SpaceBeforeSecondPriceFacts();
    KeptChar(' ', "60 for 5", "260 for 5", " 60 for 5", " 260 for 5");
  }

  /** No price starts at the front of ", 60 for 5". */
  lemma BetweenPricesFacts()
    ensures ", 60 for 5" == [','] + " 60 for 5" && MatchAt(", 60 for 5").None?
    ensures ", 260 for 5" == [','] + " 260 for 5"
  {
  }

  /** The two characters between the prices of TwoPrices are kept. */
  lemma BetweenPrices()
    ensures AdjustPrices(", 60 for 5") == ", 260 for 5"
  {
    SpaceBeforeSecondPrice();
    BetweenPricesFacts();
    KeptChar(',', " 60 for 5", " 260 for 5", ", 60 for 5", ", 260 for 5");
  }

  /** The caption of TwoPrices: a price, then text where no digit follows it directly. */
  lemma TwoPricesShape()
    ensures WellFormed(Match("12", " ", " ", "3")) && RunStopsAt(", 60 for 5", 0, Digit)
    ensures Text(Match("12", " ", " ", "3")) + ", 60 for 5" == "12 for 3, 60 for 5"
  {
  }

  /** The numbers of TwoPrices' first price: 12 is read and 15 is written back. */
  lemma TwoPricesNumbers()
    ensures Value("12") == 12 && ToDecimal(Adjust(12)) == "15"
    ensures "15" + " for " + "3" + ", 260 for 5" == "15 for 3, 260 for 5"
  {
    Numeral("15", 15);
  }

  /** Two prices in one caption are both rewritten, and the text between them is kept. */
  lemma TwoPrices()
    ensures AdjustPrices("12 for 3, 60 for 5") == "15 for 3, 260 for 5"
  {
    BetweenPrices();
    TwoPricesShape();
    TwoPricesNumbers();
    PriceThen(Match("12", " ", " ", "3"), ", 60 for 5", 12, "15", ", 260 for 5",
              "12 for 3, 60 for 5", "15 for 3, 260 for 5");
  }

  /** A one-digit first number is not a price. */
  lemma OneDigitUnchanged()
    ensures AdjustPrices("5 for 2") == "5 for 2"
  {
    var s := "5 for 2";
    forall i | 0 <= i < |s|
      ensures MatchAt(s[i..]).None?
    {
    }
    NoMatchUnchanged(s);
  }

  /** `for` is matched case-sensitively: `For` is not a price. */
  lemma CapitalForUnchanged()
    ensures AdjustPrices("12 For 3") == "12 For 3"
  {
    var s := "12 For 3";
    forall i | 0 <= i < |s|
      ensures MatchAt(s[i..]).None?
    {
      if i == 0 {
        assert s[0..] == s && s[3..6][0] == 'F';
      }
    }
    NoMatchUnchanged(s);
  }

  /** Whitespace is required after `for` as well as before it. */
  lemma MissingSpaceUnchanged()
    ensures AdjustPrices("12 for3") == "12 for3"
  {
    var s := "12 for3";
    forall i | 0 <= i < |s|
      ensures MatchAt(s[i..]).None?
    {
    }
    NoMatchUnchanged(s);
  }
}
