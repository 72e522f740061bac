# TWIG core, modelled in Dafny

TWIG learns from the twitter7 corpus of tweets and then generates
artificial tweets. This project models four pieces of its core
and proves properties about them:

- **Weighted sampling** (`DiscreteDistribution`), in `discrete_distribution.dfy`.
  - Each accepted event is stored under the running total of the chances
    accepted so far, which is its cumulative key.
  - A draw `u` selects the event with the least key strictly greater than `u`.
  - The balanced tree is a sequence kept sorted by key, and `compareTo`
    compares keys only.
  - The class `DiscreteDistribution` keeps the running total, the tolerance
    `delta` and the table. Its invariant `Consistent` says:
    - the table is sorted and holds only accepted, non-zero events;
    - the running total equals the sum of the accepted chances;
    - when every chance is positive, the keys are the prefix sums in
      insertion order.
- **Time-of-day counting** (`TimeCounter`), in `time_counter.dfy`.
  - A 24 x 60 `array2` of Java `long` counts; `long` is the newtype of
    `java_longs.dfy`.
  - `long` addition wraps modulo 2^64, and that wrap-around is written out
    explicitly.
- **The word matrix, as its test pins it down, plus the assumptions listed
  under "Left out"** (`WordMatrixTest`), in `word_matrix.dfy`, with the sums
  over maps in `map_sums.dfy`.
  - The matrix maps each predecessor word to its stored total and its
    successor counts.
  - The model gives `alterFrequency`, `getChance`, `getMappings`,
    `truncateTo` and `getPredecessors`, plus the mean of all chances and
    their variance.
  - The invariant says each total is the sum of its counts.
- **Sequential twitter7 block reading, as its test pins it down, plus the
  assumptions listed under "Left out"** (`Twitter7ReaderTest`), in `twitter7_reader.dfy`.
  - Lines are split the way `BufferedReader.readLine` splits them: at `\n`,
    `\r` and `\r\n`.
  - `readTwitter7Block` returns the next three consecutive lines tagged `T`,
    `U` and `W`, each without its tag character.
  - The test's `Parser` turns a triple back into block text, and the model
    proves the round trip.

Java doubles are modelled as mathematical reals. Random draws, file contents
and timestamps become parameters.

## Model

| member | source | states |
|---|---|---|
| DiscreteDistributions.CompareTo | src/main/java/org/aksw/twig/statistics/DiscreteDistribution.java:70-73 | compareTo's sign is negative, zero or positive exactly when this key is below, equal to or above the other key, and it is always -1, 0 or 1 |
| DiscreteDistributions.CompareToIsKeyOrder | src/main/java/org/aksw/twig/statistics/DiscreteDistribution.java:70-73 | compareTo is antisymmetric and transitive, and mappings with equal keys compare alike: a total preorder on keys alone |
| DiscreteDistributions.InsertSorted | src/main/java/org/aksw/twig/statistics/DiscreteDistribution.java:23-25 | adding to the tree keeps the key order and adds exactly the new mapping, as a multiset |
| DiscreteDistributions.InsertLargestAppends | src/main/java/org/aksw/twig/statistics/DiscreteDistribution.java:23-25 | a mapping whose key is at least every stored key is placed last |
| DiscreteDistributions.FindGreater | src/main/java/org/aksw/twig/statistics/DiscreteDistribution.java:36 | findGreater gives the first position whose mapping compares above the probe; every earlier mapping compares at or below it |
| DiscreteDistributions.SampleInInterval | src/main/java/org/aksw/twig/statistics/DiscreteDistribution.java:35-38 | a sampled event owns the interval [previous key, own key) that contains the draw, and its key is the least key above the draw |
| DiscreteDistributions.SampleNoneIffBeyondLargestKey | src/main/java/org/aksw/twig/statistics/DiscreteDistribution.java:35-38 | sample returns null exactly when the table is empty or the draw is at or above the largest key |
| DiscreteDistributions.PositiveChancesGiveIncreasingKeys | src/main/java/org/aksw/twig/statistics/DiscreteDistribution.java:55-63 | with positive chances the cumulative keys rise strictly in insertion order and never exceed the running total |
| DiscreteDistributions.NegativeChanceBreaksKeyOrder | src/main/java/org/aksw/twig/statistics/DiscreteDistribution.java:49-55 | the cumulative keys of the chances 0.5 then -0.25 fall (0.5, then 0.25), so a negative chance breaks the rise of keys in insertion order |
| DiscreteDistributions.NegativeChanceScenario | src/main/java/org/aksw/twig/statistics/DiscreteDistribution.java:48-64 | a fresh sampler accepts 0.5 and then -0.25, since the constructor rejects only 0 and overflow; the second event gets key 0.25 and the table, ordered by key, lists it first |
| DiscreteDistributions.AcceptPreservesConsistency | src/main/java/org/aksw/twig/statistics/DiscreteDistribution.java:48-64 | accepting a non-zero chance that keeps the total within 1 + delta preserves the sampler's invariant; a positive chance after positive ones is appended at the end |
| DiscreteDistributions.DiscreteDistribution.constructor | src/main/java/org/aksw/twig/statistics/DiscreteDistribution.java:15 | a new sampler has tolerance 0, total 0 and an empty table |
| DiscreteDistributions.DiscreteDistribution.WithDelta | src/main/java/org/aksw/twig/statistics/DiscreteDistribution.java:17-19 | a new sampler has the given tolerance, total 0 and an empty table |
| DiscreteDistributions.DiscreteDistribution.NewChanceMapping | src/main/java/org/aksw/twig/statistics/DiscreteDistribution.java:48-64 | succeeds exactly when the chance is non-zero and the raised total stays within 1 + delta; a zero chance is rejected; a total above 1 + delta is rejected with the raised total in the error and rolled back; on success the total grows by the chance and becomes the mapping's key |
| DiscreteDistributions.DiscreteDistribution.AddDiscreteEvent | src/main/java/org/aksw/twig/statistics/DiscreteDistribution.java:23-25 | succeeds exactly when the chance is non-zero and the raised total stays within 1 + delta; the same error cases leave table, total and accepted chances unchanged; on success the mapping is inserted by key, its chance joins the accepted ones, the total grows and the invariant holds |
| DiscreteDistributions.DiscreteDistribution.TreeAdd | src/main/java/org/aksw/twig/statistics/DiscreteDistribution.java:24 | sampleTree.add places the new mapping by key, appends its chance to the accepted ones and keeps the invariant; a positive chance after positive ones goes last |
| DiscreteDistributions.DiscreteDistribution.Reseed | src/main/java/org/aksw/twig/statistics/DiscreteDistribution.java:27-29 | only the random source's seed changes |
| DiscreteDistributions.DiscreteDistribution.Sample | src/main/java/org/aksw/twig/statistics/DiscreteDistribution.java:35-38 | given the draw, returns null exactly beyond the largest key, and otherwise the event whose interval contains the draw |
| TimeCounters.Wrap | src/main/java/org/aksw/twig/automaton/time/TimeCounter.java:70 | the long that Java arithmetic yields is congruent to the exact value modulo 2^64, and equal to it when it fits |
| TimeCounters.AddTwiceIsAddSum | src/main/java/org/aksw/twig/automaton/time/TimeCounter.java:69-71 | adding c1 and then c2 to a cell equals adding the long c1 + c2 once, wrap-around included |
| TimeCounters.CountAtConcat | src/main/java/org/aksw/twig/automaton/time/TimeCounter.java:54-62 | the count of timestamps at a clock minute is additive over concatenated timestamp streams |
| TimeCounters.SameClockMinuteSameCell | src/main/java/org/aksw/twig/automaton/time/TimeCounter.java:64-71 | only hour and minute matter: a timestamp counts 1 in its own cell and 0 in every other |
| TimeCounters.TimeCounter.constructor | src/main/java/org/aksw/twig/automaton/time/TimeCounter.java:29 | a new counter is a fresh 24 x 60 array of zeros |
| TimeCounters.TimeCounter.GetTweetTimes | src/main/java/org/aksw/twig/automaton/time/TimeCounter.java:36-38 | returns the live 24 x 60 array itself, not a copy |
| TimeCounters.TimeCounter.GetTweetTimesAt | src/main/java/org/aksw/twig/automaton/time/TimeCounter.java:46-48 | returns cell [hour][minute] exactly when both are in range; otherwise the array access fails |
| TimeCounters.TimeCounter.AddTweetTime | src/main/java/org/aksw/twig/automaton/time/TimeCounter.java:69-71 | the time's cell grows by count with long wrap-around and every other cell is unchanged |
| TimeCounters.TimeCounter.AddTweetTimes | src/main/java/org/aksw/twig/automaton/time/TimeCounter.java:55-61 | after adding every timestamp with count 1, each cell has grown, with wrap-around, by the number of timestamps at its clock minute |
| MapSums.SumIntUpdate | src/test/java/org/aksw/twig/automaton/data/WordMatrixTest.java:63-69 | replacing one count changes the sum of the counts by exactly the difference |
| MapSums.SumValues | src/test/java/org/aksw/twig/automaton/data/WordMatrixTest.java:65-67 | the loop's result is the sum of all values of the map, as the test's reduce(0L, Long::sum) computes it |
| WordMatrices.AlterPreservesTotals | src/test/java/org/aksw/twig/automaton/data/WordMatrixTest.java:48-69 | alterFrequency adds delta to one count and to its predecessor's total, leaves every other count alone, and keeps each total equal to the sum of its counts |
| WordMatrices.ChanceIn | src/test/java/org/aksw/twig/automaton/data/WordMatrixTest.java:54-55 | getChance fails exactly for an unknown predecessor or a zero total, and otherwise the chance times the total is the count |
| WordMatrices.MappingsOf | src/test/java/org/aksw/twig/automaton/data/WordMatrixTest.java:57-61 | getMappings holds exactly the successors of the predecessor, each with the chance getChance reports; it is empty for an unknown predecessor |
| WordMatrices.Truncated | src/test/java/org/aksw/twig/automaton/data/WordMatrixTest.java:40-46 | after truncation every total again equals the sum of its remaining counts |
| WordMatrices.TruncateKeepsExactlyLikelyEdges | src/test/java/org/aksw/twig/automaton/data/WordMatrixTest.java:40-46 | after truncation an edge remains, with its former count, exactly when its former chance reached the threshold |
| WordMatrices.TruncateAboveEveryChanceEmpties | src/test/java/org/aksw/twig/automaton/data/WordMatrixTest.java:44-45 | truncating above every stored chance removes every predecessor |
| WordMatrices.TruncateToOneEmptiesBranchingMatrix | src/test/java/org/aksw/twig/automaton/data/WordMatrixTest.java:41-45 | with positive counts and at least two successors per predecessor, truncateTo(1.0) leaves no predecessor |
| WordMatrices.TruncateToOneKeepsSingleSuccessor | src/test/java/org/aksw/twig/automaton/data/WordMatrixTest.java:44 | a predecessor whose only successor has chance 1 survives truncateTo(1.0) unchanged, so the requirement of two successors is needed |
| WordMatrices.TruncateToZeroKeepsMatrix | src/test/java/org/aksw/twig/automaton/data/WordMatrixTest.java:44 | truncating to 0 leaves a consistent matrix of non-negative counts and positive totals unchanged |
| WordMatrices.RowChancesSumToOne | src/test/java/org/aksw/twig/automaton/data/WordMatrixTest.java:54-69 | when a total equals the sum of its counts, the chances of that predecessor add up to 1 |
| WordMatrices.EqualChancesSum | src/test/java/org/aksw/twig/automaton/data/WordMatrixTest.java:71-72 | when every chance equals c, summing f over the chances gives f(c) times the number of chances |
| WordMatrices.EqualChancesMeanAndVariance | src/test/java/org/aksw/twig/automaton/data/WordMatrixTest.java:71-72 | when every stored chance equals c, the mean chance is c and the deviation is 0 |
| WordMatrices.MeanChanceIsPredecessorsPerChance | src/test/java/org/aksw/twig/automaton/data/WordMatrixTest.java:63-71 | in a consistent matrix the mean chance is the number of predecessors divided by the number of stored chances |
| WordMatrices.EmptyMatrixHasNoChance | src/test/java/org/aksw/twig/automaton/data/WordMatrixTest.java:12-15 | a new matrix rejects getChance as an unknown predecessor and has no mappings |
| WordMatrices.PreparedMatrixContents | src/test/java/org/aksw/twig/automaton/data/WordMatrixTest.java:48-51 | the two alterFrequency calls leave one predecessor with total 2 and two successors of count 1, and each total equals its sum |
| WordMatrices.PreparedMatrixChances | src/test/java/org/aksw/twig/automaton/data/WordMatrixTest.java:53-61 | both chances of the prepared matrix are 0.5, and its mappings are exactly those two successors at 0.5 |
| WordMatrices.PreparedMatrixStatistics | src/test/java/org/aksw/twig/automaton/data/WordMatrixTest.java:40-72 | the prepared matrix has mean chance 0.5 and variance 0, and truncating it to 1.0 leaves no predecessor |
| WordMatrices.WordMatrix.constructor | src/test/java/org/aksw/twig/automaton/data/WordMatrixTest.java:42 | a new matrix is empty and keeps the invariant |
| WordMatrices.WordMatrix.AlterFrequency | src/test/java/org/aksw/twig/automaton/data/WordMatrixTest.java:48-51 | the matrix becomes the altered matrix and keeps its invariant |
| WordMatrices.WordMatrix.GetChance | src/test/java/org/aksw/twig/automaton/data/WordMatrixTest.java:54-55 | returns the chance of the current matrix, with its error cases |
| WordMatrices.WordMatrix.GetMappings | src/test/java/org/aksw/twig/automaton/data/WordMatrixTest.java:57-61 | returns the successor-to-chance map of the current matrix |
| WordMatrices.WordMatrix.GetPredecessors | src/test/java/org/aksw/twig/automaton/data/WordMatrixTest.java:45 | returns exactly the predecessors stored |
| WordMatrices.WordMatrix.TruncateTo | src/test/java/org/aksw/twig/automaton/data/WordMatrixTest.java:44 | the loop over predecessors leaves exactly the truncated matrix and keeps the invariant |
| WordMatrices.WordMatrix.SumOverChances | src/test/java/org/aksw/twig/automaton/data/WordMatrixTest.java:71-72 | the nested loop's sum is f summed over every stored chance |
| WordMatrices.WordMatrix.GetMeanChance | src/test/java/org/aksw/twig/automaton/data/WordMatrixTest.java:71 | returns the population mean of all stored chances, or None when there is none |
| WordMatrices.WordMatrix.GetChanceVariance | src/test/java/org/aksw/twig/automaton/data/WordMatrixTest.java:72 | returns the population variance of all stored chances, whose square root is the standard deviation |
| Twitter7Readers.SplitLines | src/test/java/org/aksw/twig/parsing/Twitter7ReaderTest.java:74-80 | the input splits into no line exactly when it is empty |
| Twitter7Readers.SplitLinesHaveNoBreaks | src/test/java/org/aksw/twig/parsing/Twitter7ReaderTest.java:38-40 | no line delivered by readLine contains a line break |
| Twitter7Readers.SplitJoinedLines | src/test/java/org/aksw/twig/parsing/Twitter7ReaderTest.java:92-112 | text made of break-free lines, each followed by a newline, splits back into exactly those lines |
| Twitter7Readers.Extract | src/test/java/org/aksw/twig/parsing/Twitter7ReaderTest.java:35-85 | no block means the input is used up; a block consumes at least its three lines |
| Twitter7Readers.ExtractFindsFirstBlock | src/test/java/org/aksw/twig/parsing/Twitter7ReaderTest.java:35-69 | the result is None exactly when no three consecutive lines are tagged T, U, W; otherwise it is the first such block, tags removed, with the lines after it left unread |
| Twitter7Readers.SkipsLeadingJunk | src/test/java/org/aksw/twig/parsing/Twitter7ReaderTest.java:57-65 | lines in front of the first block that form no block do not change the result |
| Twitter7Readers.EmptyInputHasNoBlock | src/test/java/org/aksw/twig/parsing/Twitter7ReaderTest.java:74-80 | an empty input has no lines and yields null |
| Twitter7Readers.ExtractBlockLines | src/test/java/org/aksw/twig/parsing/Twitter7ReaderTest.java:40-43 | a block's three tagged lines yield its triple with only the tag character removed |
| Twitter7Readers.ReadBackFormatted | src/test/java/org/aksw/twig/parsing/Twitter7ReaderTest.java:143-150 | round trip: reading the Parser's text of a triple returns that triple and leaves the following text unread |
| Twitter7Readers.FormatRebuildsBlock | src/test/java/org/aksw/twig/parsing/Twitter7ReaderTest.java:143-150 | the other direction: the Parser rebuilds the exact text of every well-formed block of lines |
| Twitter7Readers.BrokenBlockIsSkipped | src/test/java/org/aksw/twig/parsing/Twitter7ReaderTest.java:57-65 | a block missing its U line is skipped and the next well-formed block is returned |
| Twitter7Readers.AllBlocks | src/test/java/org/aksw/twig/parsing/Twitter7ReaderTest.java:114-118 | repeated reading delivers at most one block per three lines |
| Twitter7Readers.ReadAllRecoversBlocks | src/test/java/org/aksw/twig/parsing/Twitter7ReaderTest.java:90-118 | reading a text of formatted blocks delivers every block exactly once, in order |
| Twitter7Readers.ReadingEmptiesExpectedBlocks | src/test/java/org/aksw/twig/parsing/Twitter7ReaderTest.java:90-131 | removing the Parser's text of every delivered block empties the set of expected blocks |
| Twitter7Readers.LineReader.constructor | src/test/java/org/aksw/twig/parsing/Twitter7ReaderTest.java:38 | the opened reader holds the file's text split into lines as readLine delivers them |
| Twitter7Readers.LineReader.ReadLine | src/test/java/org/aksw/twig/parsing/Twitter7ReaderTest.java:38-40 | returns the next unread line and drops it, or null at the end |
| Twitter7Readers.ReadTwitter7Block | src/test/java/org/aksw/twig/parsing/Twitter7ReaderTest.java:35-85 | the line-by-line loop returns the first block of the unread lines and consumes exactly the lines up to it |
| Twitter7Readers.ExtractWindow | src/test/java/org/aksw/twig/parsing/Twitter7ReaderTest.java:57-65 | a three-line window that forms a block is returned; otherwise its first line is dropped |
| Twitter7Readers.ReadAll | src/test/java/org/aksw/twig/parsing/Twitter7ReaderTest.java:114-117 | repeated readTwitter7Block delivers exactly the blocks of the input and uses it up |
| Twitter7Readers.DeliverAll | src/test/java/org/aksw/twig/parsing/Twitter7ReaderTest.java:114-137 | the callback's removals leave the expected texts minus those of every delivered block |

## Left out

- Random numbers: `nextDouble` is the draw parameter `u` of `Sample`. The no-argument `sample()` only forwards to it. `Reseed` records the seed, but the generator's seed scrambling and its sequence of values are not modelled.
- IEEE doubles: chances, keys and totals are reals. NaN, rounding, and the inexact rollback `(a + c) - c` are not modelled.
- The AVL tree is represented by its in-order contents, a sorted sequence. Balancing and rotations are not modelled.
- Tie order in the tree: a new mapping whose key equals a stored key goes after it. That tie order is an assumption, since the tree's code is not part of this model.
- `Main.java` is not part of this model: it is a command-line entry point.
- `TimeCounter.addModel` reads tweet times from a Jena RDF model and parses the date text. The model keeps only its counting loop (`AddTweetTimes`) over already-parsed timestamps.
- `TimeCounter.main` is left out: it does file handling and object serialization.
- The serialization round trip of `WordMatrixTest.serializeTest` is left out: it only writes and reads objects.
- The source of `WordMatrix` is not available, only its test. The class `WordMatrix` here follows what the test pins down, plus the assumptions on the `ChanceIn:` and `Altered:` lines below.
- ChanceIn: for a known predecessor with a non-zero total, a successor it has no count for gets chance 0.0. The test asks only about stored successors, so this is an assumption; the unavailable implementation might throw instead.
- Altered: a count that `alterFrequency` brings to 0 stays stored as an edge. It therefore appears in `MappingsOf`, is kept by `Truncated` at thresholds at or below 0, and is counted by `MeanChance`. The test never brings a count to 0, so this is an assumption; the implementation might remove such an edge.
- WordMatrix totals and counts are unbounded integers, so `long` overflow in them is not modelled.
- ChanceIn: Java divides by a zero total and gets NaN or Infinity. The model reports `UndefinedChance` instead. A zero total arises when the deltas given to a predecessor add up to 0: a single delta of 0, or a negative delta that cancels earlier ones.
- MappingsOf: a predecessor with a zero total yields an empty map, where Java would map each of its successors to NaN or Infinity.
- Truncated: a predecessor with a zero total loses every edge and disappears. Java would compare NaN or Infinity with the threshold instead; what the unavailable implementation then keeps is not modelled.
- MeanChance: the chances of a predecessor with a zero total are left out of the count and the sum, and so are they in ChanceVariance. Java would let NaN or Infinity into both.
- TruncateToOneEmptiesBranchingMatrix: `truncateTo(1.0)` does not empty every matrix under the strict rule. A predecessor whose only successor has chance 1 survives (TruncateToOneKeepsSingleSuccessor). The lemma therefore requires at least two successors per predecessor, as the test's matrix has.
- Truncation rule, inferred from the test: `truncateTo` removes the edges whose chance is below the threshold (strictly). It recomputes each total from the kept counts and drops predecessors left with no successor.
- GetChanceVariance: gives the variance rather than `getChanceStdDeviation`'s square root, because square roots of reals are not available. The test's deviation of 0 corresponds to variance 0.
- The source of `Twitter7Reader` is not available, only its test. `ReadTwitter7Block` and the reading methods here follow what the test pins down.
- Broken input: a three-line window not tagged T, U, W in order loses its first line, and reading moves on by one line. This rule is an assumption. The test's broken data file is not available either. The model proves that a block missing its U line is skipped (BrokenBlockIsSkipped). It assumes that the broken blocks in that file have this shape, and that any blank separator lines are skipped the same way.
- The asynchronous `read()`, `isFinished()`, the thread pool and `FutureCallback` are not modelled. `DeliverAll` delivers the blocks sequentially instead.
- File access: the text of a file is the constructor argument of `LineReader`, and `IOException` is not modelled.
