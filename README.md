# JRobin aggregation and XML tag writer, in Dafny

This project models two parts of JRobin, a Java implementation of the round-robin database:

- **`Aggregator`** (module `Aggregation`, `aggregator.dfy`). It holds a fixed-step series of
  timestamps and values. Sample `i` stands for the interval `(t[i] - step, t[i]]`. For a query
  window `[tStart, tEnd]` it computes MIN, MAX, FIRST, LAST, TOTAL and AVERAGE, weighting each
  sample by the seconds its interval shares with the window. It also computes a discard-by-count
  95th percentile of the present values in the window.
  - A missing value (`Double.NaN`) is `None`.
  - MIN, MAX and TOTAL skip missing values.
  - FIRST and LAST take the first or last participating sample even when its value is missing.
  - TOTAL weights each value by its overlap in seconds. So for a window that is exactly one validity
    interval, TOTAL is `step * value`, while FIRST, LAST, MIN, MAX and AVERAGE are the value
    itself (`OneSampleWindow`).
  - `getAggregates` and `get95Percentile` are methods with loops, as in the Java. Each is proved
    against recursive specification functions (`ScanUpTo`, `AggregatesOf`, `QualifyingUpTo`).
  - Lemmas then prove what those functions mean: least and greatest values, lowest- and
    highest-index participants, weighted sums and means, percentile ranks, and how two adjacent
    windows combine.
- **`XmlWriter`** (module `XmlWriting`, `xml_writer.dfy`). It prints one line per call. It keeps a
  stack of open tags and an indent that grows by three spaces per open tag.
  - The output stream is the sequence of lines printed so far.
  - The class `XmlWriter` holds the fields and the methods.
  - The pure functions `Apply` and `Run` give the same calls a value semantics. Each printing method
    of `XmlWriter` is tied to `Apply`, and lemmas about `Run` prove properties of call sequences: the stack/indent
    invariant, balanced nesting, and a matching start/close pair sharing its indentation.

`wrappers.dfy` holds the `Option` and `Result` datatypes.

## Model

| member | source | states |
|---|---|---|
| Aggregation.Create | src/org/jrobin/data/Aggregator.java:53-59 | Construction succeeds exactly when the two arrays have equal length and at least two entries. It then keeps both arrays and sets `step = t[1] - t[0]`. Each violated assertion gives its own error. |
| Aggregation.MaxInt | src/org/jrobin/data/Aggregator.java:73 | `Math.max` is one of its operands and no less than either. |
| Aggregation.MinInt | src/org/jrobin/data/Aggregator.java:74 | `Math.min` is one of its operands and no greater than either. |
| Aggregation.Overlap | src/org/jrobin/data/Aggregator.java:73-75 | The overlap of sample `i` with the window is at most the window length and at most the step. |
| Aggregation.Participates | src/org/jrobin/data/Aggregator.java:73-76 | A sample takes part exactly when the window has positive length, the step is positive, and the window meets the validity interval `(t[i] - step, t[i]]`: it starts before `t[i]` and ends after `t[i] - step`. |
| Aggregation.Contributes | src/org/jrobin/data/Aggregator.java:76-85 | A sample enters MIN, MAX and TOTAL exactly when its value is present and its validity interval meets the window as above. |
| Aggregation.MinIgnoringMissing | src/org/jrobin/data/Aggregator.java:78 | `Util.min` is missing only when both operands are. Its result is one of the operands and no greater than any present operand. |
| Aggregation.MaxIgnoringMissing | src/org/jrobin/data/Aggregator.java:79 | `Util.max` is missing only when both operands are. Its result is one of the operands and no less than any present operand. |
| Aggregation.SumIgnoringMissing | src/org/jrobin/data/Aggregator.java:86 | `Util.sum` is missing only when both operands are. A missing operand yields the other one; otherwise it is the sum. |
| Aggregation.ScanStep | src/org/jrobin/data/Aggregator.java:73-89 | One iteration of the loop. A sample that does not participate changes nothing. A participating sample becomes LAST and sets `firstFound`. Once `firstFound` is set FIRST never changes. `totalSeconds` never decreases, and AVERAGE is not touched inside the loop. |
| Aggregation.ScanUpTo | src/org/jrobin/data/Aggregator.java:69-90 | After any number of samples, `totalSeconds` is non-negative and AVERAGE is still undefined. MIN, MAX and TOTAL are defined or undefined together, and they are undefined exactly when `totalSeconds` is zero. |
| Aggregation.Average | src/org/jrobin/data/Aggregator.java:91 | AVERAGE is defined exactly when some second is covered and TOTAL is defined. It then times `totalSeconds` gives TOTAL back. |
| Aggregation.AggregatesOf | src/org/jrobin/data/Aggregator.java:68-92 | MIN, MAX, TOTAL and AVERAGE of the result are either all defined or all undefined. |
| Aggregation.GetAggregates | src/org/jrobin/data/Aggregator.java:68-93 | The loop over the samples returns exactly `AggregatesOf(a, tStart, tEnd)`, the specification the lemmas below characterise. |
| Aggregation.WeightedSum | src/org/jrobin/data/Aggregator.java:85-88 | Σ overlap·value over the contributing samples. It is zero when no sample contributes. |
| Aggregation.CoveredSeconds | src/org/jrobin/data/Aggregator.java:85-88 | Σ overlap over the contributing samples. It is non-negative, and positive exactly when some sample contributes. |
| Aggregation.ScanMinIsLeast | src/org/jrobin/data/Aggregator.java:78 | MIN is undefined exactly when no participating value is present. Otherwise it is one of those values and no greater than any of them. |
| Aggregation.ScanMaxIsGreatest | src/org/jrobin/data/Aggregator.java:79 | MAX is undefined exactly when no participating value is present. Otherwise it is one of those values and no less than any of them. |
| Aggregation.ScanFirstIsLowest | src/org/jrobin/data/Aggregator.java:80-83 | `firstFound` holds exactly when some sample participates. FIRST is undefined until then. Afterwards FIRST is the value, even a missing one, of the lowest-index participating sample. |
| Aggregation.ScanLastIsHighest | src/org/jrobin/data/Aggregator.java:84 | LAST is the value, even a missing one, of the highest-index participating sample. |
| Aggregation.ScanLastUndefined | src/org/jrobin/data/Aggregator.java:84 | LAST stays undefined while no sample participates. |
| Aggregation.ScanTotalIsWeightedSum | src/org/jrobin/data/Aggregator.java:85-88 | `totalSeconds` is the covered seconds. TOTAL is the weighted sum when some second is covered, and undefined otherwise. |
| Aggregation.AverageIsWeightedMean | src/org/jrobin/data/Aggregator.java:85-91 | TOTAL is the weighted sum (or undefined), and AVERAGE is the weighted sum divided by the covered seconds. AVERAGE is undefined exactly when no participating value is present. |
| Aggregation.EmptyWindow | src/org/jrobin/data/Aggregator.java:73-91 | When `tEnd <= tStart` all six aggregates are undefined and no value qualifies for the percentile. |
| Aggregation.NoParticipantWindow | src/org/jrobin/data/Aggregator.java:72-91 | When no sample participates in the window, all six aggregates are undefined and no value qualifies for the percentile. |
| Aggregation.QualifyingUpTo | src/org/jrobin/data/Aggregator.java:113-119 | The list of qualifying values is no longer than the number of samples scanned. It is empty when no sample contributes. |
| Aggregation.QualifyingMembers | src/org/jrobin/data/Aggregator.java:113-119 | A value is in the list exactly when some participating sample has it as its present value. |
| Aggregation.QualifyingMultiplicity | src/org/jrobin/data/Aggregator.java:113-119 | Each contributing sample adds its value exactly once: a value occurs in the list as many times as there are contributing samples with that value, so duplicates count individually in the percentile. |
| Aggregation.QualifyingEmptyUpTo | src/org/jrobin/data/Aggregator.java:113-119 | No value has qualified so far exactly when the loop of `getAggregates` has covered no second so far. |
| Aggregation.Qualifying | src/org/jrobin/data/Aggregator.java:111-119 | The list is no longer than the series. It is empty exactly when TOTAL of `getAggregates` over the same window is undefined. |
| Aggregation.Discard | src/org/jrobin/data/Aggregator.java:130 | The number discarded is the least `d` with `20·d >= count`, i.e. ⌈count·5%⌉. |
| Aggregation.Keep | src/org/jrobin/data/Aggregator.java:130-132 | For `count >= 2` at least one value and fewer than `count` values are kept, so the `count > 0` guard always holds. |
| Aggregation.Sort | src/org/jrobin/data/Aggregator.java:128 | After the sort the array is in ascending order and is a permutation of its old contents. |
| Aggregation.CollectQualifying | src/org/jrobin/data/Aggregator.java:111-119 | The first loop of `get95Percentile` builds `Qualifying(a, tStart, tEnd)`. |
| Aggregation.CopyToArray | src/org/jrobin/data/Aggregator.java:123-126 | The copy is a new array with the list's contents, in order. |
| Aggregation.Get95Percentile | src/org/jrobin/data/Aggregator.java:110-138 | The result is undefined exactly when fewer than two values qualify. Otherwise it is a 95th percentile of them: a qualifying value, exceeded by at most `Discard(count)` of them, with fewer than `Keep(count)` of them below it. |
| Aggregation.CountsArePermutationInvariant | src/org/jrobin/data/Aggregator.java:128 | The numbers of values above and below any `v` do not change when the values are permuted. |
| Aggregation.PercentileOfSorted | src/org/jrobin/data/Aggregator.java:128-133 | In a sorted permutation of at least two values, the element at `Keep(count) - 1` is a 95th percentile of them. |
| Aggregation.PercentileIsUnique | src/org/jrobin/data/Aggregator.java:96-133 | Any two values that meet the 95th-percentile definition are equal, so the result does not depend on how ties are sorted. |
| Aggregation.PercentileGrowsWithLargerValue | src/org/jrobin/data/Aggregator.java:121-133 | Adding a value no smaller than the current 95th percentile, in any order, cannot lower the percentile, even when one more value is then discarded. |
| Aggregation.OneSampleWindow | src/org/jrobin/data/Aggregator.java:68-92 | For a constant-step series and the window `[t[i] - step, t[i]]`, FIRST, LAST, MIN, MAX and AVERAGE are the value of sample `i`. TOTAL is that value weighted by `step`, or undefined when the value is missing. |
| Aggregation.OneSampleScan | src/org/jrobin/data/Aggregator.java:72-90 | For that window every other sample has no overlap, so the loop reduces to the iteration for sample `i`. |
| Aggregation.GrowsAt | src/org/jrobin/data/Aggregator.java:73-76 | For a constant-step series, moving the window's end from `t[k - 1]` to `t[k]` makes sample `k` participate and changes nothing for any other sample. |
| Aggregation.QualifyingUpToGrows | src/org/jrobin/data/Aggregator.java:113-119 | Moving the window's end from `t[k - 1]` to `t[k]` adds exactly the value of sample `k`, when present, to the qualifying list, in index order. |
| Aggregation.PercentileOfGrowingWindow | src/org/jrobin/data/Aggregator.java:110-138 | Growing the window by one step to take in a sample whose value is no smaller than the current 95th percentile cannot lower the percentile. |
| Aggregation.WindowOutsideSeries | src/org/jrobin/data/Aggregator.java:72-91 | For a constant-step series, a window that ends before the first validity interval starts, or starts at or after the last timestamp, has all six aggregates undefined and no qualifying value. |
| Aggregation.OverlapSplits | src/org/jrobin/data/Aggregator.java:73-76 | Splitting a window at `mid` splits each positive overlap into two summands. A sample participates in the whole window exactly when it participates in one of the halves. |
| Aggregation.AdjacentCoveredSeconds | src/org/jrobin/data/Aggregator.java:85-88 | The covered seconds of `[lo, mid]` and `[mid, hi]` add up to those of `[lo, hi]`. |
| Aggregation.AdjacentWeightedSums | src/org/jrobin/data/Aggregator.java:85-88 | The weighted sums of `[lo, mid]` and `[mid, hi]` add up to that of `[lo, hi]`. |
| Aggregation.ContributesSplits | src/org/jrobin/data/Aggregator.java:73-85 | A sample contributes to `[lo, hi]` exactly when it contributes to `[lo, mid]` or to `[mid, hi]`. |
| Aggregation.AdjacentMin | src/org/jrobin/data/Aggregator.java:78 | MIN over `[lo, hi]` is the missing-ignoring minimum of the MINs over `[lo, mid]` and `[mid, hi]`. |
| Aggregation.AdjacentMax | src/org/jrobin/data/Aggregator.java:79 | MAX over `[lo, hi]` is the missing-ignoring maximum of the MAXs over `[lo, mid]` and `[mid, hi]`. |
| Aggregation.AdjacentTotal | src/org/jrobin/data/Aggregator.java:85-88 | TOTAL over `[lo, hi]` is the missing-ignoring sum of the TOTALs over `[lo, mid]` and `[mid, hi]`. |
| Aggregation.WorkedExample | src/org/jrobin/data/Aggregator.java:141-146 | For t = 10, 20, 30, 40, v = 2, NaN, 3, 1 and window [0, 40], the aggregator is valid and gives MIN 1, MAX 3, FIRST 2, LAST 1, TOTAL 60 and AVERAGE 2. |
| Aggregation.WorkedExamplePercentile | src/org/jrobin/data/Aggregator.java:113-133 | In the same window the qualifying values are 2, 3, 1, and 2 is the one value that meets the 95th-percentile definition. |
| XmlWriting.Indentation | src/jrobin/core/XmlWriter.java:32-35 | The indent at depth `d` is `3·d` characters long and consists of spaces only. |
| XmlWriting.StartLine | src/jrobin/core/XmlWriter.java:43 | The line for `<tag>` begins with the indent and is as long as the indent plus the markup. A blank indent can be read back as the line's leading spaces. |
| XmlWriting.CloseLine | src/jrobin/core/XmlWriter.java:51 | The line for `</tag>` begins with the indent and is as long as the indent plus the markup. A blank indent can be read back as the line's leading spaces. |
| XmlWriting.ElementLine | src/jrobin/core/XmlWriter.java:55 | The line for `<tag>value</tag>` begins with the indent and is as long as the indent plus the markup. A blank indent can be read back as the line's leading spaces. |
| XmlWriting.CommentLine | src/jrobin/core/XmlWriter.java:88 | The line for `<!-- comment -->` begins with the indent and is as long as the indent plus the markup. A blank indent can be read back as the line's leading spaces. |
| XmlWriting.StackPush | src/jrobin/core/XmlWriter.java:94-96 | `push` appends the tag on top and keeps everything below it. |
| XmlWriting.StackPop | src/jrobin/core/XmlWriter.java:98-106 | On an empty stack `pop` gives null and leaves it empty. Otherwise it gives the top tag and the rest of the stack, which with that tag on top is the old stack. |
| XmlWriting.PushThenPop | src/jrobin/core/XmlWriter.java:94-106 | `pop` after `push(x)` returns `x` and restores the stack. |
| XmlWriting.TagStack.constructor | src/jrobin/core/XmlWriter.java:92 | A new stack is empty. |
| XmlWriting.TagStack.Push | src/jrobin/core/XmlWriter.java:94-96 | The method's new list is `StackPush` of the old one. |
| XmlWriting.TagStack.Pop | src/jrobin/core/XmlWriter.java:98-106 | The method's result and new list are `StackPop` of the old list. |
| XmlWriting.Apply | src/jrobin/core/XmlWriter.java:42-89 | A call throws exactly when it is `closeTag` with no open tag. Every other call keeps the invariant indent = 3·depth and appends exactly one line, keeping what was printed before. `writeTag` and `writeComment` keep the stack and the indent. |
| XmlWriting.LineShowsDepth | src/jrobin/core/XmlWriter.java:42-89 | Every printed line starts with three spaces per enclosing open tag: the depth before the call for `startTag`, `writeTag` and `writeComment`, and the depth after it for `closeTag`. |
| XmlWriting.Run | src/jrobin/core/XmlWriter.java:42-89 | A sequence of calls that does not throw keeps the indent invariant and only appends to the output. |
| XmlWriting.RunAppend | src/jrobin/core/XmlWriter.java:42-89 | Running `p + q` is running `p` and then `q` on the result. |
| XmlWriting.RunKeepsOuterTags | src/jrobin/core/XmlWriter.java:42-106 | A sequence of calls that never closes more than `allowance` of the tags already open does not throw. It changes the depth by its net count of opens minus closes and leaves the tags beneath those `allowance` untouched. |
| XmlWriting.OpenThenClose | src/jrobin/core/XmlWriter.java:42-52 | `startTag(t)` then `closeTag()` restores the stack and the indent exactly and prints `<t>` then `</t>` at the same indentation. |
| XmlWriting.BalancedBody | src/jrobin/core/XmlWriter.java:42-89 | A balanced sequence of calls (it closes only tags it opened and opens as many as it closes) does not throw and restores the stack and the indent. |
| XmlWriting.MatchingTagsShareIndent | src/jrobin/core/XmlWriter.java:42-52 | A start tag, a balanced body and the close tag that matches do not throw and restore the stack and indent. The start and close lines are printed at the same indentation. |
| XmlWriting.NaturalString | src/jrobin/core/XmlWriter.java:58-64 | The decimal digits of a natural number: at least one digit, all digits, and no leading zero. |
| XmlWriting.NaturalRoundTrip | src/jrobin/core/XmlWriter.java:58-64 | Reading the digits of `n` back gives `n`. |
| XmlWriting.DecimalString | src/jrobin/core/XmlWriter.java:58-64 | `"" + value` for an `int` or `long` starts with a minus sign exactly when the value is negative. The rest is a non-empty run of digits. |
| XmlWriting.DecimalRoundTrip | src/jrobin/core/XmlWriter.java:58-64 | Parsing the decimal text of an `int` or `long`, minus sign included, gives the number back, so `"" + value` loses nothing. |
| XmlWriting.XmlWriter.constructor | src/jrobin/core/XmlWriter.java:34-40 | A new writer has an empty indent, no open tags, nothing printed, and satisfies the indent invariant. |
| XmlWriting.XmlWriter.StartTag | src/jrobin/core/XmlWriter.java:42-46 | Keeps the invariant and agrees with `Apply`. It prints one line `indent + "<tag>"`, pushes the tag and adds three spaces to the indent. |
| XmlWriting.XmlWriter.CloseTag | src/jrobin/core/XmlWriter.java:48-52 | Succeeds exactly when a tag is open, and then agrees with `Apply`: it pops the top tag, shortens the indent by three and prints the close tag at the new indent. With no tag open it reports failure and changes nothing. |
| XmlWriting.XmlWriter.WriteTag | src/jrobin/core/XmlWriter.java:54-56 | Agrees with `Apply`: it appends `indent + "<tag>value</tag>"` and keeps the indent and the stack. |
| XmlWriting.XmlWriter.WriteTagInt | src/jrobin/core/XmlWriter.java:58-60 | Agrees with `Apply`: it appends the element with the value's decimal text as its body. |
| XmlWriting.XmlWriter.WriteTagLong | src/jrobin/core/XmlWriter.java:62-64 | Agrees with `Apply`: it appends the element with the value's decimal text as its body. |
| XmlWriting.XmlWriter.WriteTagDouble | src/jrobin/core/XmlWriter.java:66-73 | Agrees with `Apply`. A missing value is written as `nanString`; any other value is written through the number format. |
| XmlWriting.XmlWriter.WriteTagDoubleOrNaN | src/jrobin/core/XmlWriter.java:75-77 | Agrees with `Apply`. A missing value is written as `NaN`; any other value is written through the number format. |
| XmlWriting.XmlWriter.WriteComment | src/jrobin/core/XmlWriter.java:87-89 | Agrees with `Apply`: it appends `indent + "<!-- comment -->"` and keeps the indent and the stack. |

## Left out

- `src/org/jrobin/convertor/Convertor.java` is not part of this model. It walks the file system, runs an external `rrdtool dump` process, copies streams and times itself against the clock.
- IEEE-754 doubles are not modelled. Values are exact reals and NaN is `None`, so rounding of `delta * value`, of the sum and of the division is not captured.
- Aggregation.Discard: `(int) Math.ceil(count * 0.05)` is computed on doubles in the source. It is modelled as the exact integer ceiling `(count + 19) / 20`, without the floating-point product.
- `Util.min`, `Util.max` and `Util.sum` (class `Util`) are not part of this model. They are specified as missing-ignoring: a missing operand yields the other operand.
- The `Aggregates` class is not part of this model. It is a datatype of six optional values, with all six undefined on creation.
- Aggregation.Overlap: `long` arithmetic is unbounded here. Five overflows are not modelled: `step = timestamps[1] - timestamps[0]` in the constructor (line 58), `timestamps[i] - step` in `getAggregates` (line 73) and in `get95Percentile` (line 114), `right - left` (line 75) and `totalSeconds += delta` (line 87). With wrap-around, `getAggregates` can count a sample that `get95Percentile`, which compares `right > left` without subtracting (line 116), leaves out. So `EmptyWindow` and the link between `Qualifying` and TOTAL hold only while none of these overflows.
- The constant-step assumption of the constructor is not checked, as in the source: `step` is taken from the first two timestamps only. Aggregation.OneSampleWindow, Aggregation.OneSampleScan, Aggregation.GrowsAt, Aggregation.QualifyingUpToGrows, Aggregation.PercentileOfGrowingWindow and Aggregation.WindowOutsideSeries assume it explicitly (`ConstantStep`) and say nothing about a series whose step varies.
- Aggregation.Create: the Java constructor keeps the caller's two arrays by reference and computes `step` once. The model's `Aggregator` holds copies of the values, so an aggregator that sees the caller's later changes to the arrays (and a `step` that has gone stale) is not captured.
- Aggregation.Create: the Java constructor checks its two conditions with `assert`, which may be disabled at run time. The model always checks them and returns a failure instead of throwing.
- Aggregation.Sort: `Arrays.sort` is replaced by an insertion sort with the same contract, a sorted permutation.
- XmlWriting.XmlWriter.WriteTagDouble: `DecimalFormat("0.0000000000E00")` is not modelled. The formatted text is a function parameter, `format`.
- XmlWriting.XmlWriter.WriteTagDoubleOrNaN: `"" + Double.NaN` is taken to be the text `NaN`.
- XmlWriting.XmlWriter.StartTag: tag names are non-null strings. Java's `startTag(null)` prints `<null>` and pushes `null`, and a later `pop` then returns `null` from a non-empty stack, just as it does for an empty one. The model's `Option` result keeps the two cases apart.
- XmlWriting.XmlWriter.WriteTag: the Java overload takes any `Object` and prints its `toString()`. The model takes the text already rendered, so a `null` value printed as `null` is not modelled.
- XmlWriting.XmlWriter.WriteComment: the Java method takes any `Object` and prints its `toString()`. The model takes the text already rendered, so a `null` comment printed as `null` is not modelled.
- XmlWriting.XmlWriter.CloseTag: with no open tag the Java method throws (`setLength` with a negative length) after the empty `pop`. The model returns `false` and leaves the state unchanged, which is what remains after the exception.
- `PrintWriter` buffering, `finish` (flush) and `finalize` (close) are left out. The output is the list of lines printed.
- The constructor's `OutputStream` is not modelled beyond the list of printed lines.
