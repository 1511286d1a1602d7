# Caption price rewriter

This project models `adjust_prices`, the caption price rewriter of a
Telegram forwarding bot. The bot forwards channel posts to registered
channels. With this function it rewrites the text of each forwarded single
post and of the first captioned item of each album. The function finds
every quantity price of the form `<N> for <M>` with the regular expression
`(\d{2,5})\s+for\s+(\d+)`. It raises the first number N by 3 when N is
below 50 and by 200 otherwise. It writes the price back as `<N'> for <M>`.

The model has six modules:

- `Options`: the `Option` datatype, for a value that the source either
  produces or fails to produce.
- `CharClasses`: the two character classes `\d` and `\s`. It also defines
  `SpanFrom`, the length of the maximal run of one class starting at a
  position.
- `Decimal`: Python's `int()` on a digit string (`Value`, `ParseInt`) and
  the decimal formatting of an `int` in an f-string (`ToDecimal`).
- `PricePattern`: one attempt of the pattern at the start of a string
  (`MatchAt`), with Python's backtracking worked out:
  - `\d{2,5}` is followed by whitespace, so it can only succeed when it
    took the whole digit run, and that run has 2 to 5 digits;
  - each `\s+` takes its whole whitespace run;
  - the final `\d+` is greedy.
- `PriceRewriter`: the pieces of the rewrite.
  - `Adjust` raises the number and `Replacement` is the callback.
  - `Scan` is `re.sub`'s leftmost, non-overlapping scan. It cuts the
    caption into kept characters and replaced matches.
  - `AdjustPrices` joins the outputs of those pieces.
- `Sequences`: general facts about slicing and joining sequences.
- `PriceExamples`: concrete captions, proved through the general lemmas.

The rewriter in `main.py:47-61` uses fixed offsets: +3 below 50 and +200
from 50 on, so 50 itself gets +200. It only handles integer prices of the
form `<N> for <M>`.

## Model

| member | source | states |
|---|---|---|
| PriceRewriter.AdjustPrices | main.py:47-61 | `adjust_prices`: the outputs of `Scan`'s pieces joined in order; no contract of its own, UnchangedIffNoMatch, NoMatchUnchanged, AdjustPricesAtMatch and RewriteAtFront state its behaviour |
| PriceRewriter.Replacement | main.py:48-59 | the nested `replacement` callback, with the `except` fallback to group(0); no contract of its own, ReplacementOfMatch states its result on every match |
| PriceRewriter.Scan | main.py:61 | `re.sub`'s left-to-right scan into kept characters and replaced matches; no contract of its own, ScanCoversInput, ScanFindsLeftmostMatches and ScanResumes state its behaviour |
| PricePattern.MatchAt | main.py:61 | one attempt of the pattern at the start of the text; a match it finds is at least 7 characters long and fits in the text, and MatchAtSound and MatchAtComplete pin its result |
| Decimal.ParseInt | main.py:52 | `int(before_for)` on a string of digits; no contract of its own, ReplacementOfMatch shows it succeeds on group 1 and DecimalOfCanonical shows formatting inverts it |
| CharClasses.SpanFrom | main.py:61 | the run a greedy `\d` or `\s` repetition takes, which stays within the text; SpanFromIsMaximalRun and SpanFromCovers state that it is the maximal run |
| PricePattern.MatchAtSound | main.py:61 | whatever an attempt finds has the pattern's shape, is a prefix of the text, ends group 2 at the end of the digit run, and its group 1 is the whole leading digit run |
| PricePattern.MatchAtComplete | main.py:61 | whenever the text starts with any text of the pattern's shape, the attempt finds a match with the same group 1 and whitespace runs; when group 2 already ends the digit run, it finds exactly that match |
| PriceRewriter.ScanCoversInput | main.py:61 | the consumed texts of the pieces, joined in order, are the whole input: nothing is skipped, repeated or reordered |
| PriceRewriter.ScanFindsLeftmostMatches | main.py:61 | every piece sits where the pieces before it end: a kept character is the input character there and no match starts there, and a replaced match is the match found there |
| PriceRewriter.UnchangedIffNoMatch | main.py:61 | the rewrite leaves a text unchanged if and only if no match starts anywhere in it |
| Decimal.DecimalOfCanonical | main.py:52-57 | formatting inverts `int()` on canonical numerals, so a first number without leading zeros is written back digit for digit |
| CharClasses.SpanFromIsMaximalRun | main.py:61 | the run `SpanFrom` measures lies in the class and is not followed by a character of the class, so it is the maximal run, as a greedy `\d` or `\s` repetition takes it |
| CharClasses.SpanFromCovers | main.py:61 | a run of `n` class characters from `i` makes the measured run at least `n` long, and exactly `n` when the next character is outside the class |
| Decimal.ToDecimal | main.py:57 | the f-string numeral of `n` is canonical (digits only, no leading zero) and `int()` reads it back as `n` |
| Decimal.ValueLeadingZero | main.py:52 | `int()` ignores a leading zero: `"0" + s` reads as the same number as `s` |
| PricePattern.SlicesOfText | main.py:61 | a match that is a prefix of the text consists of consecutive slices of it: group 1, whitespace, `for`, whitespace, group 2 |
| PricePattern.SlicesFormMatch | main.py:61 | the four runs an attempt measures form a match of the pattern's shape that spells out the consumed prefix and ends the digit run |
| PricePattern.AttemptSucceedsOnLayout | main.py:61 | an attempt succeeds on any text laid out as digits (2 to 5, maximal), whitespace, `for`, whitespace and digits, and group 2 takes at least the given digits |
| PriceRewriter.Adjust | main.py:52-56 | the adjusted first number is at least 3 larger than the original |
| PriceRewriter.AdjustOffset | main.py:53-56 | the offset is 3 exactly when the number is below 50 and 200 exactly when it is 50 or more |
| PriceRewriter.AdjustIncreasing | main.py:53-56 | adjusting keeps the order of first numbers strictly, across the jump at 50 |
| PriceRewriter.ReplacementOfMatch | main.py:48-59 | `int()` of group 1 always succeeds, so the `except` branch is unreachable and every match becomes the adjusted number, exactly `" for "`, and group 2 unchanged |
| PriceRewriter.ScanResumes | main.py:61 | the pieces from the `k`-th on are the scan of the input from where the `k`-th piece starts, so the scan never looks back into a match |
| PriceRewriter.NoMatchUnchanged | main.py:61 | a text where no match starts anywhere comes back unchanged |
| PriceRewriter.AdjustPricesAtMatch | main.py:57-61 | a match at the front becomes the adjusted group 1, `" for "` and group 2, followed by the rewrite of the text after the match |
| PriceRewriter.MatchAtFrontChanges | main.py:53-61 | a match at the front always changes the text, because the new leading digit run differs from group 1 |
| PriceRewriter.MatchChanges | main.py:61 | a match starting anywhere changes the text |
| PriceRewriter.RewriteAtFront | main.py:57-61 | a price of the pattern's shape at the front is rewritten with single spaces around `for` and the second number unchanged, and the scan resumes after the whole second number |
| PriceRewriter.LeadingDigitsKept | main.py:61 | at the start of the text, digits in front of a run of five or more digits are copied unchanged and the rest is rewritten as if they were absent, because no match can start inside a digit run longer than five |
| PriceRewriter.LongRunKeepsLeadingDigits | main.py:61 | at the start of the text, in a digit run longer than five before `for`, only the last five digits are matched and adjusted, and the earlier digits stay as they are |
| PriceExamples.BelowThreshold | main.py:53-54 | `"49 for 2"` becomes `"52 for 2"` |
| PriceExamples.AtThreshold | main.py:55-56 | `"50 for 2"` becomes `"250 for 2"` |
| PriceExamples.LeadingZeroDropped | main.py:52-57 | `"07 for 3"` becomes `"10 for 3"` |
| PriceExamples.WhitespaceNormalised | main.py:57-61 | `"12  for\t3"` becomes `"15 for 3"` |
| PriceExamples.SixDigitRun | main.py:61 | `"123456 for 7"` becomes `"123656 for 7"` |
| PriceExamples.TwoPrices | main.py:61 | `"12 for 3, 60 for 5"` becomes `"15 for 3, 260 for 5"` |
| PriceExamples.OneDigitUnchanged | main.py:61 | `"5 for 2"` is unchanged |
| PriceExamples.CapitalForUnchanged | main.py:61 | `"12 For 3"` is unchanged |
| PriceExamples.MissingSpaceUnchanged | main.py:61 | `"12 for3"` is unchanged |
| Decimal.ValueAppend | main.py:52 | definitional step: appending a digit to a numeral multiplies its value by ten and adds the digit |
| PriceRewriter.FirstPiece | main.py:61 | definitional step: the scan's first piece covers a non-empty prefix of the text: a kept character where no match starts, or the match found there; the other pieces are the scan of the rest |
| PriceRewriter.KeepStep | main.py:61 | definitional step: where no match starts, the first character is copied and the rewrite continues after it |
| PriceRewriter.ReplaceStep | main.py:61 | definitional step: where a match starts, it is replaced and the rewrite continues right after the match |

## Left out

- The `pip install` through `subprocess.run` (main.py:3-4) is left out: it is process setup.
- Environment reading and client and bot construction (main.py:15-29) are left out: they are configuration and I/O.
- `load_channels`, `save_channels` and the `register` command (main.py:31-44 and main.py:63-76) are left out: they are JSON file I/O and a chat reply around adding an int to a set.
- `start` (main.py:79-82) is left out: it only sends a chat reply.
- `handle_album` and `handle_single` (main.py:85-131) are left out: they are network calls that forward posts and then edit captions with `adjust_prices`.
- `main`, polling and shutdown (main.py:133-157) are left out: they are asynchronous event-loop plumbing.
- generate_session.py and test_session.py are not part of this model: they are interactive logins and authorization checks against Telegram.
- `\d` is restricted to the ASCII digits `0`-`9`. Python's `\d` on `str` patterns also matches other Unicode decimal digits, and `int()` accepts them.
- `\s` is the fixed set of characters for which `str.isspace()` holds, listed in `CharClasses.IsSpace`. Python takes it from the Unicode database of the running interpreter.
- `Decimal.ParseInt` models `int()` only on strings of digits and returns None for anything else. Signs, underscores and surrounding whitespace, which `int()` also accepts, never reach it from the pattern.
- A Python `int` is unbounded, like Dafny's `nat`, so the model has no overflow.
