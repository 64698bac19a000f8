# Text range selections of sisl, modelled in Dafny

sisl lets a user pick atoms, orbitals or file indices with short strings.
Examples are `"1,3-6"`, `"1-10[2-3]"`, `"[0-1][2]"` and `"file[1,2,3-6]"`.
The module `sisl/utils/ranges.py` turns such a string into explicit index lists.
It works in three stages:

- **`strmap`** parses the text into a tree of Python tuples and lists.
  - It first removes spaces and splits on commas.
  - It then merges neighbouring pieces while a piece's brackets are still open, so a comma inside `[...]` does not end a group.
  - It classifies each group with the regular expression `\[(.+)\]\[(.+)\]|(.+)\[(.+)\]|(.+)`.
  - It casts each bracket-free leaf with `strseq`, which gives a scalar or a tuple split on `:` or `-`.
- **`lstranges`** expands that tree.
  - Two scalars become the inclusive range `erange(a, b)`.
  - Three scalars become the stepped range `erange(a, step, b)`.
  - A sub-range pair gives one `[outer, inner]` list per outer element.
  - Lists are flattened one level.
- **`fileindex`** splits `name[ranges]` into the name and the expanded indices. A one-element expansion stands for its element.

The model has seven modules:

| file | module | contents |
|---|---|---|
| `types.dfy` | `RangeTypes` | The parse tree `Tree = Scalar | Tup | Lst`, and the `Error` kinds. Each error is an exception the source raises. Also `Result`, which aborts on the first error through `:-`. |
| `strings.dfy` | `Strings` | Python's `str.replace(' ', '')`, `str.split`, `str.join` and `str.count`, with the split/join round trips. |
| `casting.dfy` | `Casting` | Python `int()` on ASCII text, and decimal printing with its round trip. |
| `tokenizer.dfy` | `Tokenizer` | The comma-merge loop of `strmap`. It is a specification function, `MergeBrackets`, plus the in-place `while` loop, `CollectBrackets`, proved equal to it. |
| `segments.dfy` | `Segments` | The regular-expression classification of one comma group into `[A][B]`, `X[Y]` or plain text. |
| `ranges.dfy` | `Ranges` | `strseq`, `erange` (over a model of Python's `range`), `strmap`, `lstranges` and `fileindex`. `strmap` and `lstranges` are recursive functions. Each also has the looping method that mirrors the source and is proved to compute that function. |
| `properties.dfy` | `RangeProperties` | The documented behaviours as lemmas. These include shape rules, the comma-list reference `[int(x) for x in s.split(',')]`, sub-ranges and the `fileindex` examples. |

The cast is `int` throughout. This is the cast `fileindex` uses and the one the integer examples in the docstrings assume. The `float` cast the `strseq` docstring also shows is not modelled (see "Left out").

## Model

| member | source | states |
|---|---|---|
| Strings.Count | sisl/utils/ranges.py:45 | `s.count(c)` is at most the length of `s`; `CountAppend` makes it add up over concatenation and `CountZero` makes it zero exactly when `c` does not occur. |
| Strings.RemoveSpaces | sisl/utils/ranges.py:39 | The result has no space, is no longer than the input, and uses only characters of the input; `RemoveSpacesAppend` and `RemoveSpacesNoop` pin it to the input with its spaces dropped, in order. |
| Strings.RemoveSpacesAppend | sisl/utils/ranges.py:39 | Removing spaces works piece by piece: the text of `a + b` loses its spaces as `a` and `b` do, so the kept characters stay in their order. |
| Strings.RemoveSpacesCount | sisl/utils/ranges.py:39 | Removing spaces keeps the number of every other character, in particular of `[`, `]` and `,`. |
| Strings.Split | sisl/utils/ranges.py:39 | `s.split(c)` has one more piece than `s` has `c`s, and no piece contains `c`. |
| Strings.JoinSplit | sisl/utils/ranges.py:39 | Joining the pieces of `s.split(c)` with `c` gives back `s`. |
| Strings.SplitJoin | sisl/utils/ranges.py:39 | Splitting a `c`-join of `c`-free pieces gives back exactly those pieces. |
| Strings.Join | sisl/utils/ranges.py:172 | `sep.join(ps)` of no pieces is empty and otherwise starts with the first piece; `JoinSplit` and `SplitJoin` make it the inverse of `split`. |
| Strings.SplitAtFirst | sisl/utils/ranges.py:169-172 | Splitting on `c` cuts at the first `c`: the first piece is the text before it, the rest are the pieces of what follows. |
| Strings.FirstIndex | sisl/utils/ranges.py:169-170 | The returned position holds `c`, and no earlier position does. |
| Casting.ParseInt | sisl/utils/ranges.py:102-105 | `int(s)` succeeds only on an optional sign followed by digits, and every such text parses: digits to their decimal value, `+digits` to the same value, `-digits` to its negation. |
| Casting.ParseShow | sisl/utils/ranges.py:156 | `int` of the decimal text of any integer `n` is `n`. |
| Casting.ParsePadded | sisl/utils/ranges.py:102-105 | `int('+7')` and `int('07')` are 7: a `+` sign and a leading zero are accepted and change nothing. |
| Casting.DigitsLeadingZero | sisl/utils/ranges.py:102-105 | A leading zero does not change the value of a run of digits. |
| Tokenizer.Balanced | sisl/utils/ranges.py:45 | A group is balanced when it has as many `[` as `]`; a balanced group holds either both brackets or neither. |
| Tokenizer.MergeBrackets | sisl/utils/ranges.py:43-50 | Merging never adds groups, keeps at least one, and leaves every group except possibly the last balanced. |
| Tokenizer.MergeBracketsJoin | sisl/utils/ranges.py:43-50 | Merging only joins a group to its successor with `","`, so the comma-joined text never changes. |
| Tokenizer.MergeBracketsBalanced | sisl/utils/ranges.py:44-46 | When every piece is balanced, the loop only advances and leaves the list unchanged. |
| Tokenizer.MergeAllOpen | sisl/utils/ranges.py:44-50 | When no proper prefix of the pieces balances, all pieces merge into one comma group. |
| Tokenizer.MergeKeep | sisl/utils/ranges.py:44-46 | Moving past a balanced group keeps the merge result of the whole list. |
| Tokenizer.MergeGlue | sisl/utils/ranges.py:46-49 | Gluing an open group to its successor shortens the list by one and keeps the merge result of the whole list. |
| Tokenizer.CollectBrackets | sisl/utils/ranges.py:43-50 | The in-place `while` loop (glue `commas[i]` to `commas[i+1]`, delete the latter, or advance) computes `MergeBrackets` of its input. |
| Tokenizer.BalancedJoin | sisl/utils/ranges.py:52-55 | With every earlier group balanced, the whole text balances exactly when the last group does. |
| Tokenizer.Tokens | sisl/utils/ranges.py:39-55 | The comma groups fail with `Unbalanced` exactly when the input's `[` and `]` counts differ. On success: there is at least one group and no more than the space-stripped input has commas plus one; the groups comma-join back to that input; every group is balanced. |
| Segments.Classify | sisl/utils/ranges.py:13 | The empty text has no match (`NoMatch`). `[A][B]` and `X[Y]` give non-empty groups that spell the front of the text up to its last `]`; otherwise the whole text is plain. The contract does not say which `][` or `[` the match cuts at: the greedy choice of the pattern is pinned by `ClassifyNested`, `ClassifySuffixed` and `ClassifyPlain`. |
| Segments.ClassifyNested | sisl/utils/ranges.py:13 | `"[" + a + "][" + b + "]"` is classified as `Nested(a, b)` whenever `b` holds no `"]["`. |
| Segments.ClassifySuffixed | sisl/utils/ranges.py:13 | `x + "[" + y + "]"` with no `[` in `x` or `y` is classified as `Suffixed(x, y)`. |
| Segments.ClassifyPlain | sisl/utils/ranges.py:13 | Non-empty text without `[` is classified as plain. |
| Ranges.CastAll | sisl/utils/ranges.py:102-104 | `tuple(map(int, parts))` succeeds exactly when every part parses, with the parsed values in order. Otherwise it fails on the first part that does not parse. |
| Ranges.StrSeq | sisl/utils/ranges.py:101-105 | With `:` the result is a tuple with one cast value per `:`-part; else with `-`, the same for `-`-parts; else the bare cast value. On failure the error names the first part `int()` rejects, every part before it parsing. |
| Ranges.PyRange | sisl/utils/ranges.py:111-112 | Python `range(start, stop, step)`: the `k`th element is `start + k*step`, every element lies strictly before `stop`, and the next one would not. |
| Ranges.ERange | sisl/utils/ranges.py:108-112 | `erange(a, b)` is `a, a+1, ..., b`: length `b-a+1` when `a <= b`, else empty. |
| Ranges.ERangeStep | sisl/utils/ranges.py:110-111 | `erange(a, s, b)` fails exactly when `s == 0`. Its elements are `a + k*s`. For `s > 0` they never exceed `b`, and the next one would. For `s < 0` they stay above `b + 1`. |
| Ranges.Concat | sisl/utils/ranges.py:59-77 | Running the groups in order: success exactly when every group succeeds, otherwise the first failure. Every item of every group is in the result, and only those. |
| Ranges.ConcatStops | sisl/utils/ranges.py:59-62 | Once the groups before a failing one succeeded, the whole list fails with that group's error. |
| Ranges.ConcatStep | sisl/utils/ranges.py:59-77 | A further successful group extends the result by exactly its trees. |
| Ranges.ConcatSingles | sisl/utils/ranges.py:74-75 | Groups of one tree each concatenate to the list of those trees, in order. |
| Ranges.StrMap | sisl/utils/ranges.py:17-77 | An unbalanced string fails with `Unbalanced`. A successful parse has at least one tree. |
| Ranges.MapSegment | sisl/utils/ranges.py:59-75 | A successful comma group contributes at least one tree. |
| Ranges.ComputeStrMap | sisl/utils/ranges.py:36-77 | The source's loop (merge, check the last group, then append each group's trees to `l`) computes `StrMap`. |
| Ranges.MapGroups | sisl/utils/ranges.py:59-77 | The loop over the comma groups computes the in-order concatenation of every group's trees, stopping at the first failing group. |
| Ranges.ComputeSegment | sisl/utils/ranges.py:59-75 | One pass of the loop body computes `MapSegment` of the group. |
| Ranges.NestedTrees | sisl/utils/ranges.py:64-68 | `[A][B]` fails with the error of `strmap(B)` first, then with that of `strmap(A)`. On success it gives one pair `(el, strmap(B))` per tree `el` of `strmap(A)`, in order. |
| Ranges.ComputeNested | sisl/utils/ranges.py:64-68 | The `[A][B]` branch (parse `B` once, then append `(el, rhs)` for each `el` of `strmap(A)`) computes `NestedTrees`. |
| Ranges.PairEach | sisl/utils/ranges.py:67-68 | The append loop gives one pair `(el, rhs)` per element, in order and nothing else. |
| Ranges.Spliced | sisl/utils/ranges.py:138-142 | An expanded item joins the result list by being spliced in when it is a list and appended otherwise; an error passes through. |
| Ranges.LstRanges | sisl/utils/ranges.py:115-145 | A scalar is returned unchanged, and every successful expansion of a tuple or list is a list. The tuple rules are stated by `LstRangesStep` and `LstRangesPair`, the list rule by `LstRangesOne`, `LstRangesScalars` and `ExpandCommaList`. |
| Ranges.ComputeLstRanges | sisl/utils/ranges.py:115-145 | Dispatching on scalar, tuple and list computes `LstRanges`. |
| Ranges.ComputeTuple | sisl/utils/ranges.py:122-134 | The tuple branch (stepped range for three entries, otherwise head and tail expanded, head first) computes `LstRanges` of the tuple. |
| Ranges.PairWith | sisl/utils/ranges.py:128-130 | The loop `for el in head: l.append([el, bot])` gives exactly one `[el, bot]` per element of the head, in order. |
| Ranges.ComputeList | sisl/utils/ranges.py:136-142 | The list loop (extend with list expansions, append the rest, stop at the first error) computes `LstRanges` of the list. |
| Ranges.Expand | sisl/utils/ranges.py:175-176 | `lstranges(strmap(int, s))` is always a list, and fails with `Unbalanced` on an unbalanced string. |
| Ranges.Collapse | sisl/utils/ranges.py:177-179 | A one-element expansion stands for its element; any other expansion is returned as the list itself. |
| Ranges.FileIndex | sisl/utils/ranges.py:165-172 | Without `[`, the name alone with no index. Otherwise the name is the text before the first `[`, and the index comes from everything after that `[`. |
| Ranges.IndexAfter | sisl/utils/ranges.py:173-179 | An empty index text is an `EmptyIndex` error. Otherwise one trailing `]` is removed and the rest expanded. The call succeeds exactly when that expansion does, with the expansion collapsed to its element when it has one; else it fails with the expansion's error. |
| Ranges.FileIndexSplit | sisl/utils/ranges.py:169-172 | `f.split('[')` then `pop(0)` and `'['.join` cut `f` at its first `[`. |
| RangeProperties.SplitThree | sisl/utils/ranges.py:102-104 | A text with exactly two separators splits into its three parts. |
| RangeProperties.StrSeqScalar | sisl/utils/ranges.py:92-93 | `'3'` casts to the bare value 3, not to a tuple, for every natural number. |
| RangeProperties.CastPair | sisl/utils/ranges.py:102-104 | Two parts that parse give the pair of their values. |
| RangeProperties.CastTriple | sisl/utils/ranges.py:102-104 | Three parts that parse give the triple of their values. |
| RangeProperties.StrSeqNegative | sisl/utils/ranges.py:103-104 | `'-n'` is not a negative number: the `-` splits it into an empty part and `n`, and `int('')` fails, so the leaf fails with `CastFailed('')`. |
| RangeProperties.CastFirstFails | sisl/utils/ranges.py:104 | A first part that does not cast fails the whole tuple, naming that part. |
| RangeProperties.StrSeqSpan | sisl/utils/ranges.py:94-95 | `'a-b'` casts to the pair `(a, b)`. |
| RangeProperties.StrSeqColonPair | sisl/utils/ranges.py:101-102 | `'a:b'` casts to the pair `(a, b)` for all integers, negative bounds included, because `:` is tested before `-`. |
| RangeProperties.StrSeqStep | sisl/utils/ranges.py:96-97 | `'a:s:b'` casts to the triple `(a, s, b)`, negative numbers included, because `:` wins over `-`. |
| RangeProperties.LstRangesScalars | sisl/utils/ranges.py:136-143 | A list of scalars expands to the same list. |
| RangeProperties.LstRangesSpan | sisl/utils/ranges.py:133-134 | A pair of scalars expands to `erange(a, b)`. |
| RangeProperties.LstRangesStep | sisl/utils/ranges.py:123-124 | A triple `(a, s, b)` expands to `erange(a, s, b)`, and fails with `ZeroStep` when `s == 0`. |
| RangeProperties.LstRangesPair | sisl/utils/ranges.py:125-134 | Any other tuple of two or more entries is read by its first two entries, expanded head first, each error propagated: a list head gives one `[el, tail]` per element in order, a scalar head with a list tail the single `[head, tail]`, two scalars `erange(head, tail)`. |
| RangeProperties.LstRangesListHead | sisl/utils/ranges.py:128-130 | A head whose expansion is a list gives one `[el, tail]` per element, in order. |
| RangeProperties.LstRangesSubRange | sisl/utils/ranges.py:126-130 | A pair with a span head and a list tail gives one `[a + k, expanded tail]` per head element, in order, with the tail expanded once. |
| RangeProperties.TokensCommaList | sisl/utils/ranges.py:39-50 | Without brackets or spaces, the comma groups are exactly `s.split(',')`. |
| RangeProperties.SegmentIntPiece | sisl/utils/ranges.py:74-75 | A plain group without `:` or `-` succeeds exactly when `int()` accepts it, giving that one value. |
| RangeProperties.ConcatCasts | sisl/utils/ranges.py:59-77 | Groups that each cast to one value concatenate to `[int(x) for x in ps]`, and fail exactly when some cast fails. |
| RangeProperties.StrMapCommaList | sisl/utils/ranges.py:17-77 | For a bracket-free, range-free comma list: `strmap` succeeds exactly when `[int(x) for x in s.split(',')]` does, with those values. |
| RangeProperties.ExpandCommaList | sisl/utils/ranges.py:136-145 | The same comma list expands to exactly `[int(x) for x in s.split(',')]`, failing exactly when a cast fails. |
| RangeProperties.BracketCounts | sisl/utils/ranges.py:45 | `x[y` holds one `[` and no `]`. `x[y]` holds one of each. |
| RangeProperties.WrappedSplit | sisl/utils/ranges.py:39 | The comma pieces of `x[y1,...,yn]` are `x[y1`, `y2`, ..., `yn]`. |
| RangeProperties.WrappedPrefixOpen | sisl/utils/ranges.py:45 | Every proper prefix of those pieces leaves the bracket open. |
| RangeProperties.TokensBracketedList | sisl/utils/ranges.py:41-50 | A comma inside brackets does not separate groups: `x[y1,...,yn]` stays one group. |
| RangeProperties.WrappedGroup | sisl/utils/ranges.py:39-50 | `x[y1,...,yn]` holds no space, balances, and its comma pieces merge back into it. |
| RangeProperties.TokensOneGroup | sisl/utils/ranges.py:39-55 | Space-free balanced text whose comma pieces merge back into it is one comma group. |
| RangeProperties.SegmentNested | sisl/utils/ranges.py:64-68 | `[A][B]` gives one pair `(el, strmap(B))` per tree `el` of `strmap(A)`, in order, all sharing the same right side. Each error is propagated, `B` first. |
| RangeProperties.SegmentSuffixed | sisl/utils/ranges.py:70-72 | `X[Y]` gives exactly one pair `(strseq(X), strmap(Y))`. Each error is propagated, `X` first. |
| RangeProperties.SegmentPlain | sisl/utils/ranges.py:74-75 | A plain group gives exactly one `strseq` result, or its error. |
| RangeProperties.ConcatOne | sisl/utils/ranges.py:59-77 | A single group's result is the whole result. |
| RangeProperties.StrMapSuffixed | sisl/utils/ranges.py:70-72 | A whole string `x[y1,...,yn]` maps to the single pair `(strseq(x), strmap(y1,...,yn))`. |
| RangeProperties.StrMapSingle | sisl/utils/ranges.py:74-75 | A lone bracket-free group maps to the one `strseq` leaf it spells. |
| RangeProperties.LstRangesOne | sisl/utils/ranges.py:136-143 | A one-item list splices in the item's expansion when that is a list, and wraps it otherwise. |
| RangeProperties.ShowNatBare | sisl/utils/ranges.py:101-104 | Decimal text holds no separator or bracket. |
| RangeProperties.SpanBare | sisl/utils/ranges.py:101-104 | The text `a-b` holds no comma, bracket or space. |
| RangeProperties.ExpandSpan | sisl/utils/ranges.py:133-134 | `'a-b'` expands to every integer from `a` to `b` inclusive. |
| RangeProperties.ExpandScalar | sisl/utils/ranges.py:139-142 | `'n'` expands to the one-element list `[n]`. |
| RangeProperties.ExpandStep | sisl/utils/ranges.py:123-124 | `'a:s:b'` expands to `erange(a, s, b)` for all integers, and fails with `ZeroStep` when `s == 0`. |
| RangeProperties.StrMapSuffixedSingle | sisl/utils/ranges.py:70-72 | `x[y]` with both sides bare maps to `(strseq(x), [strseq(y)])`. |
| RangeProperties.StrMapSubRange | sisl/utils/ranges.py:25-26 | `'a-b[c-d]'` maps to the single pair `((a, b), [(c, d)])`. |
| RangeProperties.ExpandSubRange | sisl/utils/ranges.py:126-130 | `'a-b[c-d]'` expands to one `[k, [c, ..., d]]` per `k` from `a` to `b`, in order. |
| RangeProperties.ExpandScalarHead | sisl/utils/ranges.py:131-132 | `'n[c-d]'` expands to the single pair `[n, [c, ..., d]]`. |
| RangeProperties.FirstIndexAfter | sisl/utils/ranges.py:169-170 | When the name has no `[`, the first `[` of `name[rest` is the one right after the name. |
| RangeProperties.FileIndexAfterName | sisl/utils/ranges.py:169-172 | For a name without `[`, `name[rest` reads its index from exactly `rest`. |
| RangeProperties.FileIndexBracketed | sisl/utils/ranges.py:165-179 | `name[body]` gives the name and the expansion of `body` (collapsed when it has one element), or that expansion's error. |
| RangeProperties.FileIndexUnclosed | sisl/utils/ranges.py:173-174 | The closing `]` is optional: `name[body` reads like `name[body]`. |
| RangeProperties.FileIndexScalar | sisl/utils/ranges.py:150-151 | `file[n]` gives `(file, n)`, a bare index, not a list. |
| RangeProperties.FileIndexSpan | sisl/utils/ranges.py:154-155 | `file[a-b]` gives `file` and the collapsed expansion of `a..b`: the list `[a, ..., b]`, a bare `a` when `a == b`, and the empty list when `a > b`. |
| RangeProperties.StrMapEmpty | sisl/utils/ranges.py:62 | The empty string fails: its only group has no regex match. |
| RangeProperties.TokensEmptyGroup | sisl/utils/ranges.py:39-50 | `x,,y` has the three comma groups `x`, the empty text and `y`. |
| RangeProperties.StrMapEmptyGroup | sisl/utils/ranges.py:62 | An empty group between two commas, as in `'1,,2'`, fails with `NoMatch` once the group before it succeeds. |
| RangeProperties.ExpandSubRangeExample | sisl/utils/ranges.py:121 | `'1-3[2-3]'` expands to `[[1,[2,3]],[2,[2,3]],[3,[2,3]]]`. |
| RangeProperties.ExpandStepExample | sisl/utils/ranges.py:96-97 | `'1:2:7'` expands to `[1, 3, 5, 7]`, both ends included. |
| RangeProperties.SegmentScalar | sisl/utils/ranges.py:74-75 | A decimal group maps to its one value. |
| RangeProperties.SegmentSpan | sisl/utils/ranges.py:74-75 | An `a-b` group maps to its one pair `(a, b)`. |
| RangeProperties.TokensListExample | sisl/utils/ranges.py:39-50 | `'1,2,3-6'` has the comma groups `1`, `2` and `3-6`. |
| RangeProperties.StrMapListExample | sisl/utils/ranges.py:17-77 | `'1,2,3-6'` maps to the trees `1`, `2`, `(3, 6)`. |
| RangeProperties.LstRangesListExample | sisl/utils/ranges.py:136-145 | Those trees expand to `[1, 2, 3, 4, 5, 6]`. |
| RangeProperties.ExpandListExample | sisl/utils/ranges.py:175-176 | `'1,2,3-6'` expands to `[1, 2, 3, 4, 5, 6]`. |
| RangeProperties.FileIndexExample | sisl/utils/ranges.py:159-162 | `'file[1,2,3-6]'` gives `('file', [1, 2, 3, 4, 5, 6])`. |

Where the code and its comments differ, the model follows the code:
- The docstring at sisl/utils/ranges.py:21-26 shows `strmap('1-2')` as one `func` call. The code gives the tuple from `strseq`.
- The docstring at sisl/utils/ranges.py:92-97 shows the tuples of `strseq` as results of `strmap`. `strmap` wraps them in a list.
- The comma-list reference `[int(x) for x in s.split(',')]` (`StrMapCommaList`, `ExpandCommaList`) holds only for unsigned or `+`-signed integers. Without a `:`, `strseq` reads every `-` as a span separator, so `'-1'` becomes `int('')` and fails (`StrSeqNegative`). `'-1,2'` therefore fails, although the comprehension gives `[-1, 2]`. A negative number can be written only in a `:` form, where `:` is tested first and a `-` is a sign, as in `'-3:-1'` (`StrSeqColonPair`, then `LstRangesSpan` gives `[-3, -2, -1]`) or `'-5:2:-1'` (`StrSeqStep`).

## Left out

- `sisl/io/cube.py` is not part of this model. It does file I/O and floating-point geometry through classes that are not part of this model either.
- The cast parameter of `strmap`, `strseq` and `fileindex` is fixed to `int`. Float casts (`strseq(float, ...)`) and any other callable are not modelled.
- The `cast` parameter of `lstranges` is fixed to its default, `erange`.
- Casting.ParseInt: accepts only an optional `+`/`-` followed by ASCII digits. Python's `int()` also accepts surrounding whitespace other than spaces, `_` digit separators and non-ASCII digits. Those inputs fail in the model where Python would succeed.
- Segments.Classify: assumes the group holds no newline. Python's `.` does not match a newline, which the model does not distinguish.
- Ranges.ERangeStep: a negative step is kept as the code has it, `range(a, b + 1, step)`. That range stops above `b + 1`, so it is not inclusive of `b`.
- Ranges.LstRanges: tuples the parser never builds (fewer than two items, or three items that are not all scalars) fail with `BadShape`. This stands for Python's `IndexError`/`TypeError` on those inputs.
- Python exceptions are modelled as `Err` values. The first exception raised is the one reported. No exception object, message text or traceback is modelled.
- The lists `strmap` and `lstranges` share between several pairs (the one `rhs` of an `[A][B]` group, the one expanded `bot` of a sub-range) are values here. Python's aliasing of those list objects, which a later in-place change of one pair would expose, is not modelled.
- Integers are unbounded, as Python's are. No width or overflow applies.
