# ycbvideo frame selection and frame access, in Dafny

This project models the core of `ycbvideo`, a Python library for reading the YCB-Video
dataset. The dataset keeps its frames in *frame sequences*:

- the directories `data/0000` … `data/0091`;
- the synthetic sequence `data_syn`.

In every sequence, a *frame set* is the group of files that share a six-digit index:
`000001-color.png`, `-depth.png`, `-label.png`, `-meta.mat` and, outside `data_syn`,
`-box.txt`.

The model covers:

- **Identifier normalisation** (`identifiers.dfy`). Sequence numbers are four digits and
  frame numbers six digits. Shorter digit runs are zero-padded; longer ones are rejected.
- **Element selectors** (`selectors.dfy`). These are the six ways an expression picks
  elements from a list of available names:
  - a single element;
  - a list;
  - `*`;
  - `data`;
  - `data_syn`;
  - a Python-style range `start:stop:step`.

  The model includes the range constructor's checks and the exact slice semantics.
- **The selection-expression parser** (`parsing.dfy`). It does these steps:
  - splits `sequence/frame` at its one slash;
  - tries the element handlers in their fixed order;
  - parses a batch all-or-nothing.
- **Descriptor creation** (`descriptors.dfy`). It resolves parsed selectors against the
  sequences and frame sets of a dataset into `(sequence, frame)` descriptors. It fails when
  a selected frame set is incomplete.
- **Frame-set discovery** (`frame_sets.dfy`). It does these steps:
  - matches the file names of a sequence directory;
  - groups them by frame index;
  - splits the groups into complete frame sets and incomplete ones, each with its missing
    kinds of file.

  Both copies of this logic are modelled: the one in `frame_access.py` and the one in
  `datatypes.py`, which does not know `.mat` files.
- **The frame accessor and the frame access object** (`frame_access.dfy`). It covers:
  - looking up sequences and frames;
  - normalising `(sequence, frame)` descriptions given as `int` or `str`;
  - `frames_info`;
  - the list-like `FrameAccessObject` with length, indexing, iteration, copy and shuffle.
- **Run grouping for the info report** (`info.dfy`). `get_item_ranges` cuts a list into
  maximal runs of consecutive items, and `format_in_ranges` prints each run as `first - last`.
- **The older selection syntax** (`frameselection.dfy`). This is the regular-expression
  validator and its item helpers, in both the current form (`/` separator, `data_syn`) and
  the legacy top-level form (`:` separator).
- **Shared text helpers** (`text.dfy`). These are `str.isdigit`, `int()`, `str.split`,
  `'{:0Nd}'.format`, regular-expression end anchoring, list filtering and sorting.

The file system is a value in the model:

- A directory listing is a sequence of names.
- The dataset is a datatype that maps directories to listings.
- Loading a frame yields the descriptor of the frame that would be loaded.

Where a Python loop builds a result step by step, the model has a method with a loop. The
method is proved equal to a specification function, and the properties are proved about
that function. `FrameAccessObject` and `DescriptorCreator` are classes, because the source
keeps their state in object fields.

## Model

| member | source | states |
|---|---|---|
| Identifiers.NormalizeElement | tests/test_utils.py:31-41 | accepted exactly when the element is all digits and no longer than the kind's width (4 for sequences, 6 for frames); the result is all digits, exactly that wide, ends with the input and has the same decimal value |
| Identifiers.NormalizeOptionalElement | tests/test_utils.py:44-56 | an absent element stays absent; a present one succeeds or fails exactly as `normalize_element` does and carries its result |
| Identifiers.NormalizeIdempotent | src/ycbvideo/parsing.py:36 | normalising an already normalised identifier gives it back unchanged |
| Identifiers.NormalizeIgnoresLeadingZeros | src/ycbvideo/frame_access.py:197-199 | two accepted identifiers with the same numeric value normalise to the same string, so `7`, `07` and `0007` name one sequence |
| Identifiers.NormalizeExamples | tests/test_utils.py:31-56 | `42` becomes `0042` / `000042`; `00042`, `0000042` and `not_a_digit` are rejected; `None` stays `None` |
| Selectors.Select | src/ycbvideo/selectors.py:10-13 | every selector rejects an empty list of elements, and whatever it selects is one of the available elements |
| Selectors.EmptyInputRejected | src/ycbvideo/selectors.py:10-13 | selecting from no elements raises `ValueError` for every kind of selector |
| Selectors.SingleSelection | src/ycbvideo/selectors.py:22-31 | a single-element selector yields exactly `[element]` iff the element is available, and otherwise raises a missing-element error naming it |
| Selectors.FirstMissing | src/ycbvideo/selectors.py:43-49 | finds the first wanted element that is not available, with every earlier one available; there is none exactly when all are available |
| Selectors.ListSelection | src/ycbvideo/selectors.py:40-51 | a list selector yields the wanted list unchanged iff all its elements are available; otherwise the error names the first missing element and its index |
| Selectors.StarAndDataSelection | src/ycbvideo/selectors.py:57-74 | `*` yields all elements in order; `data` yields exactly the available elements other than `data_syn`, each as often as it occurs, and returns an input without `data_syn` unchanged |
| Selectors.DataSelectionAppend | src/ycbvideo/selectors.py:74 | `data` keeps input order: selecting from a concatenation is selecting from each part in turn |
| Selectors.DropDataSyn | src/ycbvideo/selectors.py:74 | the comprehension's counts are the input's with `data_syn` set to zero, and nothing changes without `data_syn` |
| PyText.FilterAppend | src/ycbvideo/selectors.py:74 | a filtering comprehension over a concatenation is the concatenation of the filtered parts |
| PyText.FilterCount | src/ycbvideo/selectors.py:74 | a filtering comprehension keeps every kept value as often as it occurs and drops the others entirely |
| PyText.FilterKeepsAll | src/ycbvideo/selectors.py:74 | a filtering comprehension that keeps every element returns its input |
| Selectors.DataSynSelection | src/ycbvideo/selectors.py:77-91 | `data_syn` yields `["data_syn"]` when it is available and a missing-element error otherwise |
| Selectors.NewRangeSelector | src/ycbvideo/selectors.py:146-166 | a constructed range selector keeps its bounds and has a non-zero step |
| Selectors.RangeConstruction | src/ycbvideo/selectors.py:158-166 | construction fails exactly for step 0, for an ascending step with start above stop, and for a descending step with start below stop; a range with an open bound never fails for a non-zero step |
| Selectors.SelectRange | src/ycbvideo/selectors.py:108-144 | a successful range selection is never empty and only picks elements of the pool it ranges over |
| Selectors.RangeNeverEmpty | src/ycbvideo/selectors.py:135-144 | a range never selects nothing: a range from an available element to itself raises `EmptySelectionError` instead |
| Selectors.RangeMissingBound | src/ycbvideo/selectors.py:115-133 | a given start missing from the pool is reported first, then a given stop missing from it, each as a missing-element error naming that bound |
| Selectors.SequenceRangeIsNumeric | src/ycbvideo/selectors.py:111-113 | a sequence range only ever selects numeric sequences, never `data_syn` |
| Selectors.RangeOrder | src/ycbvideo/selectors.py:135 | over sorted elements, a range with a positive step selects in ascending order and one with a negative step in descending order |
| Selectors.SliceForward | src/ycbvideo/selectors.py:135 | a slice with step 1 between two indices is the contiguous run between them |
| Selectors.SliceBackward | src/ycbvideo/selectors.py:135 | a slice with step -1 from index j down to index i is the reverse of the run after i up to j |
| Selectors.SliceWhole | src/ycbvideo/selectors.py:135 | `[::1]` is the list and `[::-1]` its reverse |
| Selectors.SliceMembers | src/ycbvideo/selectors.py:135 | a slice only contains elements of the sliced list |
| Selectors.AscendingAt | src/ycbvideo/selectors.py:135 | the k-th element of a forward slice is the element at start + k·step, which is below the stop |
| Selectors.DescendingAt | src/ycbvideo/selectors.py:135 | the k-th element of a backward slice is the element at start − k·step, which is above the stop |
| Selectors.RangeAt | src/ycbvideo/selectors.py:108-144 | a range of either kind whose bounds sit in its pool (for sequences the numeric identifiers only) selects the Python slice of the pool between their positions, or raises `EmptySelectionError` with the pool when that slice is empty |
| Selectors.FrameRangeAt | src/ycbvideo/selectors.py:115-144 | a frame range whose bounds are available elements selects the Python slice between their positions, or raises `EmptySelectionError` when that slice is empty |
| Selectors.PoolOfNumeric | src/ycbvideo/selectors.py:111-113 | numeric identifiers followed by a non-numeric one leave only the numeric ones in a sequence range's pool |
| Selectors.TestSequencesPool | src/ycbvideo/selectors.py:111-113 | the pool of the test sequences with `data_syn` is the numeric sequences |
| Selectors.SequenceRangeExample | tests/test_selectors.py:166-195 | `Select` of the sequence range `42:55:2` over the test sequences with `data_syn` returns `0042, 0044` |
| Selectors.ForwardRangeExample | tests/test_selectors.py:191-195 | `Select` of the frame range `42:55:2` over the test frames returns `42, 44` |
| Selectors.BackwardRangeExample | tests/test_selectors.py:253-257 | `Select` of the frame range `55:42:-1` over the test frames returns `55, 47, 44, 43` |
| Selectors.EmptyForwardExample | tests/test_selectors.py:329-333 | `:40`, which stops at the first frame, raises `EmptySelectionError` |
| Selectors.EmptyBackwardExample | tests/test_selectors.py:337-341 | `:56:-1`, which stops at the last frame going backwards, raises `EmptySelectionError` |
| Parsing.StepValue | src/ycbvideo/parsing.py:78 | an absent step is 1, and a written one is its `int()` value |
| Parsing.NormalizeAll | src/ycbvideo/parsing.py:45-47 | a list expression's elements all normalise or the list fails; each result is its element zero-padded to the kind's width |
| Parsing.RangeOfGroups | src/ycbvideo/parsing.py:73-80 | an expression of range shape always answers: a range selector, or the constructor's error |
| Parsing.ApplyHandler | src/ycbvideo/parsing.py:29-80 | a handler either declines, matches or raises its own error, never the "no handler matched" error |
| Parsing.ParseElementExpression | src/ycbvideo/parsing.py:98-122 | the handler loop returns the answer of the first handler in source order that does not decline |
| Parsing.FirstMatchIsFirst | src/ycbvideo/parsing.py:98-122 | the parse fails with "no handler matched" iff every handler declines; otherwise the result is that of a handler before which all others declined |
| Parsing.HandlersExclusive | src/ycbvideo/parsing.py:98-122 | for any part, at most one handler of a kind's handler list answers, so the order of the list decides nothing |
| Parsing.ShapesExclusive | src/ycbvideo/parsing.py:20-24 | a digit run, a bracketed list, a keyword and a range expression are mutually exclusive shapes |
| Parsing.SinglePartParses | src/ycbvideo/parsing.py:29-40 | a digit run within the width parses to a single-element selector holding the zero-padded number |
| Parsing.NegativeStartRejected | src/ycbvideo/parsing.py:23-24 | a part starting with `-` is rejected, because only the step of a range may be negative |
| Parsing.RangePartDecidedByRange | src/ycbvideo/parsing.py:113-122 | for a range-shaped part, the parse result is the range handler's result |
| Parsing.StarPartParses | src/ycbvideo/parsing.py:53-57 | `*` parses to the star selector of the kind |
| Parsing.WholeRangeExample | tests/test_parsing.py:26 | `:` parses to a range with open bounds and step 1 |
| Parsing.ParseWellFormed | src/ycbvideo/parsing.py:29-80 | every parsed selector is of its axis and holds only normalised identifiers (all digits, exactly the width); its ranges have a non-zero step and bounds ordered in the step's direction |
| Parsing.NewRangeOrdered | src/ycbvideo/selectors.py:161-166 | a range that passed the constructor has a non-zero step and bounds ordered in the step's direction |
| Parsing.SplitExpression | src/ycbvideo/parsing.py:83-96 | fails for no `/` and for more than one `/`; on success the two non-empty, slash-free parts joined by `/` give back the expression |
| Parsing.SplitJoinRoundTrip | src/ycbvideo/parsing.py:89-96 | two non-empty, slash-free parts joined by `/` split back into exactly those parts |
| Parsing.Parse | src/ycbvideo/parsing.py:124-136 | a parse error carries the expression; a parsed selector keeps the expression, which holds exactly one `/` |
| Parsing.ParseExpression | src/ycbvideo/parsing.py:124-136 | the method computes the parse of the expression |
| Parsing.ParseWithoutSlash | src/ycbvideo/parsing.py:84-85 | an expression without `/` is rejected as malformed |
| Parsing.InvalidExpressionExample | tests/test_parsing.py:113-118 | `invalid` is rejected, and the error names `invalid` |
| Parsing.ParseSelectionExpressions | src/ycbvideo/parsing.py:7-16 | the batch loop computes the all-or-nothing parse of the batch |
| Parsing.CollectParses | src/ycbvideo/parsing.py:7-16 | the loop over parsed expressions stops at the first failure and otherwise collects every selector in order |
| Parsing.ParseAllFirstFailure | src/ycbvideo/parsing.py:7-16 | a batch parses iff every expression parses, giving one selector per expression in input order; otherwise the error names the first invalid expression, its index and its cause |
| Parsing.CollectFirstFailure | src/ycbvideo/parsing.py:7-16 | the same first-failure property for any prefix of a batch of parse results |
| Parsing.CollectKeepsFailure | src/ycbvideo/parsing.py:12-13 | once an expression fails, later expressions change nothing |
| Parsing.ParseAllAppend | src/ycbvideo/parsing.py:7-16 | parsing two valid batches one after the other gives the concatenation of their selectors |
| Parsing.MapEachAppend | src/ycbvideo/parsing.py:9-11 | parsing each expression of two batches is parsing each batch and concatenating |
| Parsing.ParseAllAsWritten | src/ycbvideo/parsing.py:13 | the batch parse as written succeeds exactly when the corrected one does, but any error reports index 0 |
| Parsing.ReportedIndexAsWritten | src/ycbvideo/parsing.py:13 | when the second expression is the first invalid one, the written code reports index 0 where the intended index is 1 |
| Parsing.ReportedIndexCounterexample | src/ycbvideo/parsing.py:13 | for `["*/*", "bad"]` the intended index is 1 and the written one is 0 |
| FrameSelection.GetFrameSelector | src/ycbvideo/frameselection.py:36-43 | an accepted selection is a valid sequence part, the separator and a valid frame part, with an optional final line break; anything else is a syntax error naming the selection |
| FrameSelection.GetFrameSelectorIff | src/ycbvideo/frameselection.py:5-9 | a selection is accepted exactly when it has that shape |
| FrameSelection.GetFrameSelectorOfParts | src/ycbvideo/frameselection.py:37-41 | valid parts joined by the separator, with or without a final line break, are read back as exactly those parts |
| FrameSelection.GetFrameSelectors | src/ycbvideo/frameselection.py:19-29 | the loop computes the all-or-nothing reading of the selections |
| FrameSelection.ReadSelectors | frameselection.py:11-21 | the legacy loop, with any reader, computes the same all-or-nothing reading |
| FrameSelection.FrameSelectorsFirstFailure | src/ycbvideo/frameselection.py:19-29 | all selections are read, in order, iff each is valid; otherwise the error names the first invalid selection and its index |
| FrameSelection.IsStarSelection | src/ycbvideo/frameselection.py:32-33 | true exactly for the one-item list `['*']` |
| FrameSelection.GetItems | src/ycbvideo/frameselection.py:46-55 | a bracketed digit list yields its items, which joined by commas and bracketed give back the selection; a single digit run, `*` or (current syntax only) `data_syn` yields itself; anything else fails |
| FrameSelection.GetItemsOfList | src/ycbvideo/frameselection.py:48-49 | a bracketed list of digit runs is read back as exactly those runs |
| FrameSelection.PartsHaveItems | src/ycbvideo/frameselection.py:36-55 | every part the selection validator accepts has items |
| FrameSelection.GetItemsRejects | tests/test_frameselection.py:164-173 | `[]`, `[*]` and `42,` have no items |
| FrameSelection.FormatSelectionItem | src/ycbvideo/frameselection.py:58-65 | an unknown kind of item is refused; `*` (and `data_syn` in the current syntax) passes through; a digit item is formatted as the same number, all digits, exactly as wide as the larger of the kind's width and the number's shortest decimal form |
| FrameSelection.LongItemExample | src/ycbvideo/frameselection.py:65 | `0000042` as a sequence item is formatted as `0042`: surplus leading zeros are dropped |
| FrameSelection.FormatAgreesWithNormalize | src/ycbvideo/frameselection.py:65 | for a digit item within the width, formatting gives the same identifier as the parser's normaliser |
| FrameSelection.PaddedValue | src/ycbvideo/frameselection.py:65 | `'{:0Nd}'.format(int(item))` equals the item zero-padded to N when the item fits |
| FrameSelection.DecimalLength | src/ycbvideo/frameselection.py:65 | `str(int(s))` is never longer than the digit run `s` |
| FrameSelection.LegacyFormatRejectsDataSyn | frameselection.py:63-66 | the legacy formatter fails on `data_syn` in `int()`, while the current one passes it through |
| FrameSets.ExpectedKinds | src/ycbvideo/frame_access.py:56-58 | `box` is expected exactly outside `data_syn`; color, depth and label (and meta, where `.mat` is known) are always expected |
| FrameSets.MatchFileName | src/ycbvideo/frame_access.py:35 | a matched file name is a six-digit index, `-`, a lower-case kind, `.` and a known extension |
| FrameSets.MatchFileNameOf | src/ycbvideo/frame_access.py:47-49 | every such file name is matched, giving back its index and kind |
| FrameSets.MatFilesIgnored | src/ycbvideo/datatypes.py:12 | the `datatypes` layout ignores `.mat` files |
| FrameSets.LayoutsAgreeOffMat | src/ycbvideo/datatypes.py:12 | off `.mat` files, both layouts match a file name the same way |
| FrameSets.Grouping | src/ycbvideo/frame_access.py:45-54 | the grouping lists each frame index once, in order of first appearance, and has kinds for exactly those indices |
| FrameSets.GroupingMembers | src/ycbvideo/frame_access.py:45-54 | an index is grouped iff some file of it matched, and a kind is recorded for it iff a file of that index and kind matched |
| FrameSets.GroupFiles | src/ycbvideo/frame_access.py:43-54 | the listing loop computes that grouping |
| FrameSets.RecordMatch | src/ycbvideo/frame_access.py:48-54 | one more matched file adds its kind to its index, opening the index if needed |
| FrameSets.MissingKinds | src/ycbvideo/frame_access.py:63-67 | the missing kinds are exactly the expected kinds not found, in the expected order |
| FrameSets.CollectMissingKinds | src/ycbvideo/frame_access.py:63-67 | the loop computes those missing kinds |
| FrameSets.Classify | src/ycbvideo/frame_access.py:60-72 | an index is complete iff nothing is missing for it, and incomplete, with its missing kinds, iff something is |
| FrameSets.ClassifyFrameSets | src/ycbvideo/frame_access.py:60-72 | the classification loop computes that classification |
| FrameSets.GetAvailableFrameSets | src/ycbvideo/frame_access.py:42-74 | the whole method computes the complete and incomplete frame sets of a listing |
| FrameSets.CompleteIffAllKinds | src/ycbvideo/frame_access.py:60-72 | a frame set is complete iff a file of every expected kind is listed for it |
| FrameSets.IncompleteIffKindMissing | src/ycbvideo/frame_access.py:60-72 | a frame set is incomplete iff it has some file but lacks an expected kind |
| FrameSets.IncompleteListsMissing | src/ycbvideo/frame_access.py:63-70 | an incomplete frame set lists exactly its absent expected kinds, in expected order |
| FrameSets.ClassificationDisjoint | src/ycbvideo/frame_access.py:60-72 | no frame set is both complete and incomplete, and neither list repeats an index |
| FrameSets.Lookup | src/ycbvideo/frame_access.py:93-94 | a key is found exactly when the dictionary has it, with the value stored under it |
| FrameSets.Length | src/ycbvideo/frame_access.py:86-87 | the length of a frame sequence is its number of complete frame sets |
| FrameSets.FrameKey | src/ycbvideo/frame_access.py:90-91 | a non-negative integer index becomes at least six digits with the same value |
| FrameSets.CheckFrame | src/ycbvideo/frame_access.py:89-96 | a frame is found iff its key is complete and not incomplete; an incomplete one fails naming its missing kinds |
| FrameSets.GetFrameChecks | src/ycbvideo/frame_access.py:89-96 | a frame is found iff the listing holds a file of every expected kind for its key; otherwise the reported missing kinds are exactly the absent ones |
| FrameAccess.AvailableFrameSequences | src/ycbvideo/frame_access.py:133-139 | the available sequences are the entries of `data/` plus `data_syn` when that directory exists |
| FrameAccess.DirectoryOf | src/ycbvideo/frame_access.py:164 | the `data_syn` directory is used exactly for the name `data_syn` |
| FrameAccess.SequenceKey | src/ycbvideo/frame_access.py:161-162 | a non-negative integer sequence index becomes at least four digits with the same value |
| FrameAccess.GetFrameSequence | src/ycbvideo/frame_access.py:159-169 | a sequence is found iff its key is available; it lives in the directory its name selects; otherwise the error names the key |
| FrameAccess.PyStrOf | src/ycbvideo/frame_access.py:194-195 | `str()` of a non-negative integer is a digit run with that value |
| FrameAccess.SequencePart | src/ycbvideo/frame_access.py:197-198 | `data_syn` is kept as is, and anything else is normalised as a sequence number |
| FrameAccess.NormalizeDescription | src/ycbvideo/frame_access.py:188-199 | a description other than `str`/`int` raises `TypeError`; otherwise it succeeds iff both parts normalise, giving the normalised descriptor |
| FrameAccess.LookUpFrame | src/ycbvideo/frame_access.py:201 | a descriptor is found iff its sequence is available and its frame is complete there; an unavailable sequence is reported as such |
| FrameAccess.AccessorGetFrame | src/ycbvideo/frame_access.py:171-201 | getting a frame is normalising the description and then looking it up, with the normalisation's error first |
| FrameAccess.SameNumbersSameFrame | src/ycbvideo/frame_access.py:193-199 | descriptions that give the same numbers, as `int` or as `str` and with any leading zeros, get the same frame |
| FrameAccess.ZeroOneNormalized | tests/test_dataset_access.py:220-228 | `(0, 1)`, `(0, '1')` and `('0', 1)` all describe `('0000', '000001')` |
| FrameAccess.ZeroOneExample | tests/test_dataset_access.py:220-228 | in a dataset with complete frame `0000/000001`, those descriptions all get that frame |
| FrameAccess.CompleteEntries | src/ycbvideo/frame_access.py:150-151 | every complete frame set is listed, in order, with `None` |
| FrameAccess.IncompleteEntries | src/ycbvideo/frame_access.py:152-153 | every incomplete frame set is listed, in order, with its missing kinds |
| FrameAccess.InfoOfFrameSetsEntries | src/ycbvideo/frame_access.py:149-155 | in a sequence's entry a frame set maps to `None` iff it is complete, and to a list iff it is incomplete with that list missing |
| FrameAccess.CollectFrameSetsInfo | src/ycbvideo/frame_access.py:149-153 | the two loops compute that entry |
| FrameAccess.CollectFramesInfo | src/ycbvideo/frame_access.py:141-157 | the loop computes the frames info of the dataset, assigning dictionary entries so that a repeated name stays one key |
| FrameAccess.CollectSequences | src/ycbvideo/frame_access.py:145-155 | the loop over sequence names assigns their entries in order, as `info[name] = entry` does |
| FrameAccess.KeyIndex | src/ycbvideo/frame_access.py:155 | finds where a key sits in an insertion-ordered dictionary, or that it is absent |
| FrameAccess.SetEntry | src/ycbvideo/frame_access.py:155 | `info[key] = value` appends a new key and otherwise keeps every key in place while storing the value |
| FrameAccess.AssignAllKeys | src/ycbvideo/frame_access.py:144-155 | after the loop every assigned name is a key exactly once with its own entry, and sorted names give ascending keys |
| FrameAccess.AssignStep | src/ycbvideo/frame_access.py:155 | one assignment keeps the keys distinct, each with its entry, and adds the name |
| FrameAccess.SetEntrySorted | src/ycbvideo/frame_access.py:142-155 | assigning a key no smaller than the present keys keeps them ascending |
| FrameAccess.FramesInfoShape | src/ycbvideo/frame_access.py:141-157 | the keys of the info are distinct, ascending and exactly the sorted available names, each holding its own entry |
| FrameAccess.FramesInfoOrder | src/ycbvideo/frame_access.py:142-155 | every later key of the info is strictly greater |
| FrameAccess.FramesInfoEntryAt | src/ycbvideo/frame_access.py:145-155 | each key of the info is an available sequence and holds that sequence's entry |
| FrameAccess.InfoOfSequencesSnoc | src/ycbvideo/frame_access.py:145-155 | one more turn of the loop assigns the next name its entry |
| FrameAccess.FramesInfoKeys | src/ycbvideo/frame_access.py:133-157 | a name is a key of the info exactly when it is an available sequence |
| FrameAccess.DataSynListedTwice | src/ycbvideo/frame_access.py:133-157 | `data_syn` listed in `data/` and at the top gives a single key |
| FrameAccess.SortTwice | src/ycbvideo/frame_access.py:142 | sorting a name listed twice keeps both |
| FrameAccess.AssignTwice | src/ycbvideo/frame_access.py:155 | assigning the same name twice leaves one key |
| FrameAccess.FramesInfoEntries | src/ycbvideo/frame_access.py:141-157 | the keys of the info are available sequences in strictly ascending order, each with its complete frame sets as `None` and its incomplete ones with their missing kinds |
| FrameAccess.LoadInOrder | src/ycbvideo/frame_access.py:219-221 | loading goes through the items in order and stops at the first failure, which is reported with every earlier item loaded |
| FrameAccess.FrameAccessObject.constructor | src/ycbvideo/frame_access.py:205-208 | the object holds the dataset and the given descriptors |
| FrameAccess.FrameAccessObject.GetFrame | src/ycbvideo/frame_access.py:210-211 | the frame got is the descriptor's own with both parts normalized, and it is got exactly when both parts normalize, its sequence is available and its frame set is complete |
| FrameAccess.FrameAccessObject.GetDescriptors | src/ycbvideo/frame_access.py:213-214 | returns the descriptors, unchanged |
| FrameAccess.FrameAccessObject.Shuffle | src/ycbvideo/frame_access.py:216-217 | shuffling keeps the same descriptors, as a multiset, in some order |
| FrameAccess.FrameAccessObject.Iterate | src/ycbvideo/frame_access.py:219-221 | iteration yields the frame of each descriptor in order, stopping at the first that fails |
| FrameAccess.FrameAccessObject.Length | src/ycbvideo/frame_access.py:223-224 | the length is the number of descriptors |
| FrameAccess.FrameAccessObject.GetItem | src/ycbvideo/frame_access.py:226-233 | a non-integer index raises `TypeError`; an index outside `0 <= i < len` raises `ValueError`; otherwise it gets the frame of the i-th descriptor |
| Descriptors.AvailableFrames | src/ycbvideo/descriptor_creation.py:31-34 | the frames to select from are the complete and incomplete frame sets together, sorted |
| Descriptors.ConcatAll | src/ycbvideo/descriptor_creation.py:13-15 | the concatenation succeeds iff every step does; otherwise it fails with the first failing step's error |
| Descriptors.ConcatAllAppend | src/ycbvideo/descriptor_creation.py:13-15 | concatenating two successful batches gives the concatenation of their results |
| Descriptors.ConcatAllMember | src/ycbvideo/descriptor_creation.py:13-15 | every concatenated element comes from one of the steps |
| Descriptors.DescriptorsOf | src/ycbvideo/descriptor_creation.py:49-50 | one descriptor per selected frame, in order, all in the given sequence |
| Descriptors.ResolveSequence | src/ycbvideo/descriptor_creation.py:28-50 | a sequence resolves iff its frame selection succeeds and selects only complete frame sets; the error for an incomplete one names a selected incomplete frame and its missing kinds |
| Descriptors.ResolveSequenceErrors | src/ycbvideo/descriptor_creation.py:36-47 | a missing frame gives "frame not available" naming sequence and frame, any other selection error propagates unchanged, and a successful selection fails exactly when it picked an incomplete frame, with "files missing" |
| Descriptors.ResolveSelectionErrors | src/ycbvideo/descriptor_creation.py:23-50 | a missing sequence gives "sequence not available", any other selection error propagates unchanged, and otherwise the error is that of the first selected sequence that fails |
| Descriptors.DescriptorCreator.constructor | src/ycbvideo/descriptor_creation.py:7-8 | the creator holds the dataset inventory |
| Descriptors.DescriptorCreator.GetDescriptors | src/ycbvideo/descriptor_creation.py:10-17 | computes the resolution of the whole batch of expressions |
| Descriptors.DescriptorCreator.ResolveSelectors | src/ycbvideo/descriptor_creation.py:13-15 | the loop over selectors computes the concatenation of their descriptors |
| Descriptors.DescriptorCreator.CreateDescriptorsFromSelector | src/ycbvideo/descriptor_creation.py:19-26 | computes the descriptors of one selector |
| Descriptors.DescriptorCreator.ResolveSequences | src/ycbvideo/descriptor_creation.py:28 | the loop over selected sequences computes the concatenation of their descriptors |
| Descriptors.DescriptorCreator.ResolveSequenceFrames | src/ycbvideo/descriptor_creation.py:29-50 | computes the descriptors of one selected sequence |
| Descriptors.InvalidExpressionFailsBatch | src/ycbvideo/descriptor_creation.py:10-11 | one invalid expression makes the whole batch fail, naming an invalid expression at or before it |
| Descriptors.ResolveConcatenates | src/ycbvideo/descriptor_creation.py:13-17 | resolving two valid batches one after the other gives the concatenation of their descriptors |
| Descriptors.SelectionSound | src/ycbvideo/descriptor_creation.py:43-50 | every descriptor of a resolved selection has a selected sequence and a complete frame set |
| Descriptors.SelectorSound | src/ycbvideo/descriptor_creation.py:20-50 | every descriptor of a selector names an available sequence and a complete frame set in it |
| Descriptors.ResolveSound | src/ycbvideo/descriptor_creation.py:10-50 | every descriptor of a batch names an available sequence and a complete frame set in it |
| Descriptors.SelectionFilesMissing | src/ycbvideo/descriptor_creation.py:43-47 | a missing-files error comes from a selected sequence and is that sequence's error |
| Descriptors.FilesMissingNamesSelectedFrame | src/ycbvideo/descriptor_creation.py:43-47 | a missing-files error names an available sequence, a selected frame that is not complete, and exactly that frame's missing kinds |
| Info.CheckConsecution | src/ycbvideo/info.py:46-51 | consecutive names are never `data_syn` and never equal |
| Info.ConsecutionByInt | src/ycbvideo/info.py:46-51 | two names are consecutive iff both are digit runs and the second's `int()` is the first's plus one |
| Info.DataSynIsolated | src/ycbvideo/info.py:50-51 | `data_syn` is consecutive with nothing, in either position |
| Info.PaddedConsecutive | src/ycbvideo/info.py:46-48 | zero-padded numbers n and n + 1 are consecutive |
| Info.GetItemRanges | src/ycbvideo/info.py:12-32 | the loop computes the runs of the items |
| Info.Runs | src/ycbvideo/info.py:19-32 | items give runs exactly when there are any, and the last run ends at the last item |
| Info.RunsNext | src/ycbvideo/info.py:23-28 | one more item extends the last run when it follows the previous item, and otherwise opens a new run |
| Info.RunsPartition | src/ycbvideo/info.py:19-32 | the runs are non-empty, adjacent and cover the items from first to last |
| Info.RunsMaximal | src/ycbvideo/info.py:23-28 | inside a run every item follows the previous one, and between runs it does not |
| Info.RunsUnique | src/ycbvideo/info.py:12-32 | any partition into such maximal runs is the one computed |
| Info.ItemRangesCharacterized | src/ycbvideo/info.py:12-32 | `get_item_ranges` is exactly the partition of the items into maximal runs |
| Info.OneRunRanges | src/ycbvideo/info.py:23-30 | items that all follow each other form one run |
| Info.RangesWithoutRuns | src/ycbvideo/info.py:23-30 | items none of which follows the previous form one run each |
| Info.FormatRanges | src/ycbvideo/info.py:37-41 | one formatted entry per run, in order |
| Info.FormatInRanges | src/ycbvideo/info.py:35-43 | the method computes the formatting of the runs of the items |
| Info.FormatEach | src/ycbvideo/info.py:36-41 | the loop formats each run, in order |
| Info.FormatWithoutRuns | src/ycbvideo/info.py:38-39 | without consecutive items, formatting gives the items back |
| Info.FormatOneRun | src/ycbvideo/info.py:40-41 | one run of two or more items formats as `first - last` |
| Info.ItemRangesExamples | tests/test_info.py:17-25 | no items give no runs, one item gives `(0, 1)`, and `42` to `46` give `(0, 5)` |
| Info.ItemRangesSortedExample | tests/test_info.py:28-29 | `0, 7, 8, 13, 42, 43, 44, 49` give `(0,1) (1,3) (3,4) (4,7) (7,8)` |
| Info.ItemRangesUnsortedExample | tests/test_info.py:30-31 | `7, 8, 0, 42, 43, 44, 13, 49` give `(0,2) (2,3) (3,6) (6,7) (7,8)` |
| Info.FormatInRangesExample | tests/test_info.py:42-43 | `0042, 0043, 0044` format as `0042 - 0044` |

## Left out

- Reading images, `.mat` meta files and box files (`imageio`, `scipy.io`, `_get_boxes`), in both `frame_access.py` and `datatypes.py`. Loading a frame is modelled as yielding the descriptor of the frame that would be loaded, because pixel arrays and floating-point box coordinates carry no logic of this core.
- File-system access. `os.listdir` and `Path.exists` become a dataset value that maps each directory to its listing. `validate_directory_path` is not modelled: a path in the model always names a directory.
- `dataset_access.DatasetAccess` is modelled only as the inventory that descriptor creation reads. It holds the available sequences and the frame sets of each.
- `loader.py`, `load_frame_selectors_from_file`, `print_frame_info`, `read_frame_count_per_frame_sequence`, the command-line entry points and the top-level `ycbvideo.py` are not part of this model. They are I/O and printing around the core.
- The root `utils.get_frame_set_index` is not part of this model. Its type check rejects every input, so it has no behaviour to prove.
- `functools.lru_cache` on `get_available_frame_sets` and `get_frame_sequence` is not modelled. Both functions are pure over the dataset value, so caching changes nothing observable.
- FrameAccess.FrameAccessObject.constructor: the object keeps the caller's list itself, so a shuffle also reorders the caller's list. The model holds the descriptors as a value and does not capture that aliasing.
- FrameAccess.FramesInfoEntries: does not promise that the `i`-th key is the `i`-th sorted name, because a name listed twice is one key; it promises strictly ascending keys that are exactly the available sequences (with FrameAccess.FramesInfoKeys).
- FrameAccess.FrameAccessObject.Shuffle: the random draws of `random.shuffle` become a parameter. The contract states only that the result is a permutation, not which one.
- Descriptors.ResolveSequence: `list(set(...))[0]` picks an arbitrary incomplete frame. The model picks the first one in selection order, and the contract promises only a selected incomplete frame with its missing kinds.
- `str.isdigit` is modelled on ASCII digits only. Python also accepts other Unicode decimal and digit characters.
- `int()` is modelled for optional whitespace, a sign, and digit groups separated by single underscores, which covers every string this core passes to it.
- FrameSelection.IsStarSelection is stated for a list of any element type and any star element. The source uses strings and `'*'`.
- The mixed sample of `format_in_ranges` with `data_syn` (tests/test_info.py:46-49) is not stated as a lemma of its own. Info.DataSynIsolated and Info.FormatOneRun cover its parts.
- Parsing.ParseSelectionExpressions passes the `Parse` function to its loop rather than calling the `ParseExpression` method. Dafny functions cannot call methods, and the two are proved equal.
- Exception message texts are not modelled. Errors are datatypes that carry the values the messages print, except the batch index of an invalid expression: Parsing.ParseSelectionExpressions and Descriptors.Resolve carry the index of the expression that failed, while the message prints `0` (see "## Findings").
- Python slices exclude the stop, so `a:b:1` and `b:a:-1` do not select the same elements in reverse: the first includes `a` and not `b`, the second `b` and not `a`. Selectors.SliceBackward states how the two relate.

## Findings

| source | as written | input that shows it | evidently intended | confidence | as-written member | corrected member |
|---|---|---|---|---|---|---|
| src/ycbvideo/parsing.py:13 | the error for an invalid expression always reports `at index 0` | `["*/*", "bad"]`: the invalid expression is at index 1 | report the index of the invalid expression | high; not executed | Parsing.ReportedIndexCounterexample | Parsing.ParseAllFirstFailure |
