/**
 * Classification of the files of one frame-sequence directory into frame sets
 * (`FrameSequence.get_available_frame_sets` and the existence checks of `FrameSequence.get_frame`).
 * The same algorithm appears twice in the package, differing only in the file extensions its
 * pattern admits and in the kinds of file a frame set must have: a `Layout` value captures the
 * difference. The directory listing is an input.
 */
module FrameSets {
  import opened PyText

  // ---------------------------------------------------------------- layouts

  /** The extensions the file-name pattern admits, and the kinds every frame set must have
      (before `box`, which is added for every directory except `data_syn`). */
  datatype Layout = Layout(extensions: seq<string>, baseKinds: seq<string>)

  /** The layout of `frame_access.FrameSequence`: meta data in `.mat` files. */
  const FrameAccessLayout := Layout(["png", "txt", "mat"], ["color", "depth", "label", "meta"])

  /** The layout of `datatypes.FrameSequence`: no meta data. */
  const DatatypesLayout := Layout(["png", "txt"], ["color", "depth", "label"])

  const DataSynName := "data_syn"

  /** A run of one or more lower-case ASCII letters (`[a-z]+`). */
  predicate IsLowerWord(s: string) {
    |s| > 0 && forall i :: 0 <= i < |s| ==> 'a' <= s[i] <= 'z'
  }

  /** Every extension is a lower-case word, so it holds neither '.' nor a newline. */
  predicate LayoutWellFormed(layout: Layout) {
    forall e :: e in layout.extensions ==> IsLowerWord(e)
  }

  lemma LayoutsWellFormed()
    ensures LayoutWellFormed(FrameAccessLayout) && LayoutWellFormed(DatatypesLayout)
  {
    assert IsLowerWord("png") && IsLowerWord("txt") && IsLowerWord("mat");
  }

  /** The kinds of file a frame set of the directory `sequenceName` must have, in the order
      missing kinds are reported. */
  function ExpectedKinds(layout: Layout, sequenceName: string): (r: seq<string>)
    ensures "box" in r <==> "box" in layout.baseKinds || sequenceName != DataSynName
    ensures forall k :: k in layout.baseKinds ==> k in r
  {
    layout.baseKinds + if sequenceName != DataSynName then ["box"] else []
  }

  // ---------------------------------------------------------------- file names

  /** The two named groups of a matching file name. */
  datatype FileMatch = FileMatch(index: string, kind: string)

  /** Matching the pattern `^(?P<index>[0-9]{6})-(?P<kindoffile>[a-z]+)\.(<extensions>)$`.
      The kind cannot contain '.', so it runs up to the first '.' after the dash, and the
      extension is everything after that dot. */
  function MatchFileName(layout: Layout, file: string): (r: Option<FileMatch>)
    ensures r.Some? ==> |r.value.index| == 6 && IsDigits(r.value.index) && IsLowerWord(r.value.kind)
    ensures r.Some? ==> exists ext :: ext in layout.extensions &&
                          EndAnchored(file) == r.value.index + "-" + r.value.kind + "." + ext
  {
    var s := EndAnchored(file);
    if |s| < 7 || !IsDigits(s[..6]) || s[6] != '-' || '.' !in s[7..] then None
    else
      var rest := s[7..];
      var dot := IndexOf(rest, '.');
      var kind := rest[..dot];
      var ext := rest[dot + 1..];
      if IsLowerWord(kind) && ext in layout.extensions then
        assert s == s[..6] + "-" + kind + "." + ext;
        Some(FileMatch(s[..6], kind))
      else None
  }

  /** Every name built from a 6-digit index, a kind and an admitted extension matches, and the
      match gives the index and the kind back. */
  lemma MatchFileNameOf(layout: Layout, index: string, kind: string, ext: string)
    requires LayoutWellFormed(layout)
    requires |index| == 6 && IsDigits(index) && IsLowerWord(kind) && ext in layout.extensions
    ensures MatchFileName(layout, index + "-" + kind + "." + ext) == Some(FileMatch(index, kind))
  {
    var s := index + "-" + kind + "." + ext;
    var rest := kind + "." + ext;
    assert EndAnchored(s) == s by {
      assert s[|s| - 1] == ext[|ext| - 1];
    }
    assert s[..6] == index && s[6] == '-' && s[7..] == rest;
    KindRunsToDot(kind, ext);
  }

  /** The first '.' after a lower-case kind is the one right after it. */
  lemma KindRunsToDot(kind: string, ext: string)
    requires IsLowerWord(kind)
    ensures var rest := kind + "." + ext;
            '.' in rest && IndexOf(rest, '.') == |kind| && rest[..|kind|] == kind && rest[|kind| + 1..] == ext
  {
    var rest := kind + "." + ext;
    assert rest[|kind|] == '.';
    assert rest[..|kind|] == kind;
  }

  /** The `datatypes` variant admits no `.mat` file. */
  lemma MatFilesIgnored(file: string)
    requires |EndAnchored(file)| >= 4 && EndAnchored(file)[|EndAnchored(file)| - 4..] == ".mat"
    ensures MatchFileName(DatatypesLayout, file) == None
  {
    var s := EndAnchored(file);
    assert s[|s| - 3..] == "mat";
    if |s| >= 7 && IsDigits(s[..6]) && s[6] == '-' && '.' in s[7..] {
      var rest := s[7..];
      var dot := IndexOf(rest, '.');
      var ext := rest[dot + 1..];
      assert ext == s[8 + dot..];
      if |ext| == 3 {
        assert ext == s[|s| - 3..];
      }
      assert ext !in DatatypesLayout.extensions;
    }
  }

  /** Both variants agree on every name that does not end in `.mat`. */
  lemma LayoutsAgreeOffMat(file: string, m: FileMatch)
    requires MatchFileName(FrameAccessLayout, file) == Some(m)
    requires !(|EndAnchored(file)| >= 4 && EndAnchored(file)[|EndAnchored(file)| - 4..] == ".mat")
    ensures MatchFileName(DatatypesLayout, file) == Some(m)
  {
    var s := EndAnchored(file);
    var ext :| ext in FrameAccessLayout.extensions && s == m.index + "-" + m.kind + "." + ext;
    assert ext != "mat";
    LayoutsWellFormed();
    MatchFileNameOf(DatatypesLayout, m.index, m.kind, ext);
    if file != s {
      MatchFileNameOf(FrameAccessLayout, m.index, m.kind, ext);
    }
  }

  // ---------------------------------------------------------------- grouping by index

  predicate Distinct(s: seq<string>) {
    forall i, j :: 0 <= i < j < |s| ==> s[i] != s[j]
  }

  /** The match of every listed name, in listing order. */
  function MatchAll(layout: Layout, files: seq<string>): (ms: seq<Option<FileMatch>>)
    ensures |ms| == |files|
  {
    if files == [] then [] else MatchAll(layout, files[..|files| - 1]) + [MatchFileName(layout, files[|files| - 1])]
  }

  lemma {:induction false} MatchAllAt(layout: Layout, files: seq<string>, j: nat)
    requires j < |files|
    ensures MatchAll(layout, files)[j] == MatchFileName(layout, files[j])
  {
    if j < |files| - 1 {
      MatchAllAt(layout, files[..|files| - 1], j);
    }
  }

  /** The `frame_sets` dictionary: its keys in insertion order, and the kinds seen per key. */
  datatype Grouped = Grouped(order: seq<string>, kinds: map<string, set<string>>)

  /** Some match carries index `index`. */
  ghost predicate Seen(ms: seq<Option<FileMatch>>, index: string) {
    exists j :: 0 <= j < |ms| && ms[j].Some? && ms[j].value.index == index
  }

  /** Some match carries index `index` and kind `kind`. */
  ghost predicate Names(ms: seq<Option<FileMatch>>, index: string, kind: string) {
    exists j :: 0 <= j < |ms| && ms[j] == Some(FileMatch(index, kind))
  }

  /** The dictionary after the first loop of `get_available_frame_sets` has read names whose
      matches are `ms`. */
  function Grouping(ms: seq<Option<FileMatch>>): (r: Grouped)
    ensures Distinct(r.order)
    ensures forall x :: x in r.order <==> x in r.kinds
  {
    if ms == [] then Grouped([], map[])
    else
      var prev := Grouping(ms[..|ms| - 1]);
      match ms[|ms| - 1]
      case None => prev
      case Some(m) =>
        if m.index in prev.kinds then Grouped(prev.order, prev.kinds[m.index := prev.kinds[m.index] + {m.kind}])
        else Grouped(prev.order + [m.index], prev.kinds[m.index := {m.kind}])
  }

  lemma SeenSnoc(init: seq<Option<FileMatch>>, last: Option<FileMatch>, index: string)
    ensures Seen(init + [last], index) <==> Seen(init, index) || (last.Some? && last.value.index == index)
  {
    var ms := init + [last];
    if Seen(init, index) {
      var j :| 0 <= j < |init| && init[j].Some? && init[j].value.index == index;
      assert ms[j] == init[j];
    }
    if last.Some? && last.value.index == index {
      assert ms[|init|] == last;
    }
    if Seen(ms, index) {
      var j :| 0 <= j < |ms| && ms[j].Some? && ms[j].value.index == index;
      if j < |init| {
        assert init[j] == ms[j];
      }
    }
  }

  lemma NamesSnoc(init: seq<Option<FileMatch>>, last: Option<FileMatch>, index: string, kind: string)
    ensures Names(init + [last], index, kind) <==> Names(init, index, kind) || last == Some(FileMatch(index, kind))
  {
    var ms := init + [last];
    if Names(init, index, kind) {
      var j :| 0 <= j < |init| && init[j] == Some(FileMatch(index, kind));
      assert ms[j] == init[j];
    }
    if last == Some(FileMatch(index, kind)) {
      assert ms[|init|] == last;
    }
    if Names(ms, index, kind) {
      var j :| 0 <= j < |ms| && ms[j] == Some(FileMatch(index, kind));
      if j < |init| {
        assert init[j] == ms[j];
      }
    }
  }

  /** The keys of the dictionary are exactly the indices of the matches, and the kinds recorded
      for an index are exactly the kinds matched with it. */
  lemma {:induction false} GroupingMembers(ms: seq<Option<FileMatch>>, index: string, kind: string)
    ensures index in Grouping(ms).kinds <==> Seen(ms, index)
    ensures index in Grouping(ms).kinds ==> (kind in Grouping(ms).kinds[index] <==> Names(ms, index, kind))
  {
    if ms != [] {
      var init := ms[..|ms| - 1];
      assert ms == init + [ms[|ms| - 1]];
      GroupingMembers(init, index, kind);
      SeenSnoc(init, ms[|ms| - 1], index);
      NamesSnoc(init, ms[|ms| - 1], index, kind);
    } else {
      assert !Seen(ms, index);
    }
  }

  // ---------------------------------------------------------------- missing kinds

  /** `r` keeps some of the elements of `s`, in their order in `s`. */
  predicate IsSubsequence(r: seq<string>, s: seq<string>)
    decreases |s|
  {
    r == [] ||
    (s != [] &&
     ((r[|r| - 1] == s[|s| - 1] && IsSubsequence(r[..|r| - 1], s[..|s| - 1])) ||
      IsSubsequence(r, s[..|s| - 1])))
  }

  /** The inner loop: the expected kinds that are not among `kinds`. */
  function MissingKinds(expected: seq<string>, kinds: set<string>): (r: seq<string>)
    ensures forall k :: k in r <==> k in expected && k !in kinds
    ensures IsSubsequence(r, expected)
  {
    if expected == [] then []
    else
      var prev := MissingKinds(expected[..|expected| - 1], kinds);
      var k := expected[|expected| - 1];
      assert forall x :: x in expected <==> x in expected[..|expected| - 1] || x == k;
      if k !in kinds then
        assert (prev + [k])[..|prev|] == prev;
        prev + [k]
      else prev
  }

  // ---------------------------------------------------------------- complete and incomplete

  /** The two results: the complete indices in dictionary order, and the incomplete ones with
      their missing kinds as an insertion-ordered dictionary. */
  datatype FrameSets = FrameSets(complete: seq<string>, incomplete: seq<(string, seq<string>)>)

  /** `d.keys()`, in insertion order. */
  function Keys<V>(d: seq<(string, V)>): (r: seq<string>)
    ensures |r| == |d| && forall i :: 0 <= i < |d| ==> r[i] == d[i].0
  {
    seq(|d|, i requires 0 <= i < |d| => d[i].0)
  }

  /** `d[key]` on an insertion-ordered dictionary: the last entry under `key` wins. */
  function Lookup(d: seq<(string, seq<string>)>, key: string): (r: Option<seq<string>>)
    ensures r.Some? <==> key in Keys(d)
    ensures r.Some? ==> (key, r.value) in d
  {
    if d == [] then None
    else if d[|d| - 1].0 == key then Some(d[|d| - 1].1)
    else
      assert Keys(d) == Keys(d[..|d| - 1]) + [d[|d| - 1].0];
      Lookup(d[..|d| - 1], key)
  }

  lemma KeysMember(d: seq<(string, seq<string>)>, key: string, value: seq<string>)
    ensures (key, value) in d ==> key in Keys(d)
  {
    if (key, value) in d {
      var i :| 0 <= i < |d| && d[i] == (key, value);
      assert Keys(d)[i] == key;
    }
  }

  /** Each dictionary key with the expected kinds its frame set lacks, in key order. */
  function MissingPerIndex(expected: seq<string>, order: seq<string>, kinds: map<string, set<string>>)
    : (r: seq<(string, seq<string>)>)
    requires forall x :: x in order ==> x in kinds
    ensures Keys(r) == order
  {
    if order == [] then []
    else
      var init := order[..|order| - 1];
      var x := order[|order| - 1];
      assert forall y :: y in init ==> y in order;
      var prev := MissingPerIndex(expected, init, kinds);
      assert Keys(prev + [(x, MissingKinds(expected, kinds[x]))]) == Keys(prev) + [x];
      prev + [(x, MissingKinds(expected, kinds[x]))]
  }

  /** An entry is a key of the dictionary paired with exactly its missing kinds. */
  lemma {:induction false} MissingPerIndexMember(expected: seq<string>, order: seq<string>,
                                                 kinds: map<string, set<string>>, x: string, m: seq<string>)
    requires forall y :: y in order ==> y in kinds
    ensures (x, m) in MissingPerIndex(expected, order, kinds) <==> x in order && m == MissingKinds(expected, kinds[x])
  {
    if order != [] {
      var init := order[..|order| - 1];
      assert forall y :: y in init ==> y in order;
      assert forall y :: y in order <==> y in init || y == order[|order| - 1];
      MissingPerIndexMember(expected, init, kinds, x, m);
    }
  }

  /** The second loop of `get_available_frame_sets`: a key with nothing missing is appended to
      the complete list, any other key is entered with its missing kinds. */
  function Classify(entries: seq<(string, seq<string>)>): (r: FrameSets)
    ensures forall x :: x in r.complete <==> (x, []) in entries
    ensures forall e :: e in r.incomplete <==> e in entries && e.1 != []
  {
    if entries == [] then FrameSets([], [])
    else
      var init := entries[..|entries| - 1];
      var e := entries[|entries| - 1];
      assert forall y :: y in entries <==> y in init || y == e;
      var prev := Classify(init);
      if e.1 != [] then FrameSets(prev.complete, prev.incomplete + [e])
      else FrameSets(prev.complete + [e.0], prev.incomplete)
  }

  /** With distinct keys, the complete list and the incomplete dictionary repeat no index and
      share none. */
  lemma {:induction false} ClassifyDistinct(entries: seq<(string, seq<string>)>)
    requires Distinct(Keys(entries))
    ensures Distinct(Classify(entries).complete)
    ensures Distinct(Keys(Classify(entries).incomplete))
    ensures forall x :: x in Classify(entries).complete ==> x !in Keys(Classify(entries).incomplete)
  {
    if entries != [] {
      var init := entries[..|entries| - 1];
      var e := entries[|entries| - 1];
      assert Keys(entries) == Keys(init) + [e.0];
      assert Distinct(Keys(init)) && e.0 !in Keys(init);
      ClassifyDistinct(init);
      var prev := Classify(init);
      assert e.0 !in prev.complete by {
        if e.0 in prev.complete {
          KeysMember(init, e.0, []);
        }
      }
      assert e.0 !in Keys(prev.incomplete) by {
        if e.0 in Keys(prev.incomplete) {
          var m := Lookup(prev.incomplete, e.0).value;
          KeysMember(init, e.0, m);
        }
      }
      if e.1 != [] {
        assert Keys(prev.incomplete + [e]) == Keys(prev.incomplete) + [e.0];
        DistinctSnoc(Keys(prev.incomplete), e.0);
      } else {
        DistinctSnoc(prev.complete, e.0);
      }
    }
  }

  lemma DistinctSnoc(s: seq<string>, x: string)
    requires Distinct(s) && x !in s
    ensures Distinct(s + [x])
  {
  }

  /** `get_available_frame_sets()` as a function of the directory name and its listing. */
  function AvailableFrameSets(layout: Layout, sequenceName: string, files: seq<string>): FrameSets {
    var g := Grouping(MatchAll(layout, files));
    Classify(MissingPerIndex(ExpectedKinds(layout, sequenceName), g.order, g.kinds))
  }

  /** One more listing entry either is skipped, adds a kind to a known index, or opens a new index. */
  lemma GroupingSnoc(ms: seq<Option<FileMatch>>, m: Option<FileMatch>)
    ensures var prev, next := Grouping(ms), Grouping(ms + [m]);
            && (m.None? ==> next == prev)
            && (m.Some? && m.value.index in prev.kinds ==>
                  next == Grouped(prev.order, prev.kinds[m.value.index := prev.kinds[m.value.index] + {m.value.kind}]))
            && (m.Some? && m.value.index !in prev.kinds ==>
                  next == Grouped(prev.order + [m.value.index], prev.kinds[m.value.index := {m.value.kind}]))
  {
    assert (ms + [m])[..|ms|] == ms;
  }

  /** The first loop of `get_available_frame_sets`: the dictionary of kinds per index. */
  method GroupFiles(layout: Layout, files: seq<string>) returns (order: seq<string>, frameSets: map<string, set<string>>)
    ensures Grouped(order, frameSets) == Grouping(MatchAll(layout, files))
  {
    order, frameSets := [], map[];
    for i := 0 to |files|
      invariant Grouping(MatchAll(layout, files[..i])) == Grouped(order, frameSets)
    {
      var m := MatchFileName(layout, files[i]);
      ghost var ms := MatchAll(layout, files[..i]);
      assert MatchAll(layout, files[..i + 1]) == ms + [m] by {
        assert files[..i + 1][..i] == files[..i];
      }
      if m.Some? {
        order, frameSets := RecordMatch(ms, order, frameSets, m.value);
      } else {
        GroupingSnoc(ms, m);
      }
    }
    assert files[..|files|] == files;
  }

  /** The body of the first loop for a matching name: a new index is added with no kinds yet,
      then the kind is added to the index's set. */
  method RecordMatch(ghost ms: seq<Option<FileMatch>>, order: seq<string>, frameSets: map<string, set<string>>, m: FileMatch)
    returns (order': seq<string>, frameSets': map<string, set<string>>)
    requires Grouping(ms) == Grouped(order, frameSets)
    ensures Grouping(ms + [Some(m)]) == Grouped(order', frameSets')
  {
    GroupingSnoc(ms, Some(m));
    order', frameSets' := order, frameSets;
    if m.index !in frameSets' {
      order' := order' + [m.index];
      frameSets' := frameSets'[m.index := {}];
    }
    assert m.index !in frameSets ==> frameSets'[m.index] + {m.kind} == {m.kind};
    frameSets' := frameSets'[m.index := frameSets'[m.index] + {m.kind}];
    assert m.index !in frameSets ==> frameSets' == frameSets[m.index := {m.kind}];
  }

  /** The innermost loop of `get_available_frame_sets`. */
  method CollectMissingKinds(expected: seq<string>, kinds: set<string>) returns (missing: seq<string>)
    ensures missing == MissingKinds(expected, kinds)
  {
    missing := [];
    for j := 0 to |expected|
      invariant missing == MissingKinds(expected[..j], kinds)
    {
      assert expected[..j + 1][..j] == expected[..j];
      if expected[j] !in kinds {
        missing := missing + [expected[j]];
      }
    }
    assert expected[..|expected|] == expected;
  }

  lemma MissingPerIndexSnoc(expected: seq<string>, order: seq<string>, kinds: map<string, set<string>>, i: nat)
    requires forall x :: x in order ==> x in kinds
    requires i < |order|
    ensures forall x :: x in order[..i] ==> x in kinds
    ensures MissingPerIndex(expected, order[..i + 1], kinds) ==
              MissingPerIndex(expected, order[..i], kinds) + [(order[i], MissingKinds(expected, kinds[order[i]]))]
  {
    assert order[..i + 1][..i] == order[..i];
  }

  lemma ClassifySnoc(entries: seq<(string, seq<string>)>, e: (string, seq<string>))
    ensures Classify(entries + [e]) ==
              if e.1 != [] then FrameSets(Classify(entries).complete, Classify(entries).incomplete + [e])
              else FrameSets(Classify(entries).complete + [e.0], Classify(entries).incomplete)
  {
    assert (entries + [e])[..|entries|] == entries;
  }

  /** The second loop of `get_available_frame_sets`. */
  method ClassifyFrameSets(expected: seq<string>, order: seq<string>, frameSets: map<string, set<string>>)
    returns (complete: seq<string>, incomplete: seq<(string, seq<string>)>)
    requires forall x :: x in order ==> x in frameSets
    ensures FrameSets(complete, incomplete) == Classify(MissingPerIndex(expected, order, frameSets))
  {
    complete, incomplete := [], [];
    for i := 0 to |order|
      invariant Classify(MissingPerIndex(expected, order[..i], frameSets)) == FrameSets(complete, incomplete)
    {
      var frameSet := order[i];
      var missing := CollectMissingKinds(expected, frameSets[frameSet]);
      MissingPerIndexSnoc(expected, order, frameSets, i);
      ClassifySnoc(MissingPerIndex(expected, order[..i], frameSets), (frameSet, missing));
      if missing != [] {
        incomplete := incomplete + [(frameSet, missing)];
      } else {
        complete := complete + [frameSet];
      }
    }
    assert order[..|order|] == order;
  }

  method GetAvailableFrameSets(layout: Layout, sequenceName: string, files: seq<string>)
    returns (complete: seq<string>, incomplete: seq<(string, seq<string>)>)
    ensures FrameSets(complete, incomplete) == AvailableFrameSets(layout, sequenceName, files)
  {
    var order, frameSets := GroupFiles(layout, files);
    var expected := layout.baseKinds;
    if sequenceName != DataSynName {
      expected := expected + ["box"];
    }
    assert expected == ExpectedKinds(layout, sequenceName);
    complete, incomplete := ClassifyFrameSets(expected, order, frameSets);
  }

  /** The dictionary entry of an index, when the index is a key, in terms of the listing: the
      key's missing kinds are exactly the expected kinds no name carries with it. */
  lemma GroupedKinds(ms: seq<Option<FileMatch>>, expected: seq<string>, index: string)
    requires index in Grouping(ms).kinds
    ensures forall k :: k in MissingKinds(expected, Grouping(ms).kinds[index]) <==>
                          k in expected && !Names(ms, index, k)
  {
    forall k
      ensures k in Grouping(ms).kinds[index] <==> Names(ms, index, k)
    {
      GroupingMembers(ms, index, k);
    }
  }

  /** An index is complete iff some name carries it and every expected kind has a name with it. */
  lemma CompleteIffAllKinds(layout: Layout, sequenceName: string, files: seq<string>, index: string)
    ensures index in AvailableFrameSets(layout, sequenceName, files).complete <==>
              Seen(MatchAll(layout, files), index) &&
              forall k :: k in ExpectedKinds(layout, sequenceName) ==> Names(MatchAll(layout, files), index, k)
  {
    var ms := MatchAll(layout, files);
    var g := Grouping(ms);
    var expected := ExpectedKinds(layout, sequenceName);
    var entries := MissingPerIndex(expected, g.order, g.kinds);
    assert AvailableFrameSets(layout, sequenceName, files) == Classify(entries);
    assert index in Classify(entries).complete <==> (index, []) in entries;
    GroupingMembers(ms, index, "");
    MissingPerIndexMember(expected, g.order, g.kinds, index, []);
    if index in g.kinds {
      GroupedKinds(ms, expected, index);
      var m := MissingKinds(expected, g.kinds[index]);
      if m != [] {
        assert m[0] in expected && !Names(ms, index, m[0]);
      }
    }
  }

  /** An index is incomplete iff some name carries it and some expected kind has no name with it. */
  lemma IncompleteIffKindMissing(layout: Layout, sequenceName: string, files: seq<string>, index: string)
    ensures index in Keys(AvailableFrameSets(layout, sequenceName, files).incomplete) <==>
              Seen(MatchAll(layout, files), index) &&
              exists k :: k in ExpectedKinds(layout, sequenceName) && !Names(MatchAll(layout, files), index, k)
  {
    var ms := MatchAll(layout, files);
    var g := Grouping(ms);
    var expected := ExpectedKinds(layout, sequenceName);
    var entries := MissingPerIndex(expected, g.order, g.kinds);
    var r := Classify(entries);
    assert AvailableFrameSets(layout, sequenceName, files) == r;
    GroupingMembers(ms, index, "");
    if index in Keys(r.incomplete) {
      var m := Lookup(r.incomplete, index).value;
      assert (index, m) in entries && m != [];
      MissingPerIndexMember(expected, g.order, g.kinds, index, m);
      GroupedKinds(ms, expected, index);
      assert m[0] in expected && !Names(ms, index, m[0]);
    }
    if Seen(ms, index) && exists k :: k in expected && !Names(ms, index, k) {
      var k :| k in expected && !Names(ms, index, k);
      GroupedKinds(ms, expected, index);
      var m := MissingKinds(expected, g.kinds[index]);
      assert k in m;
      MissingPerIndexMember(expected, g.order, g.kinds, index, m);
      assert (index, m) in r.incomplete;
      KeysMember(r.incomplete, index, m);
    }
  }

  /** The entry of an incomplete index lists exactly the expected kinds that no name carries
      with it, in expected order. */
  lemma IncompleteListsMissing(layout: Layout, sequenceName: string, files: seq<string>, index: string)
    requires Lookup(AvailableFrameSets(layout, sequenceName, files).incomplete, index).Some?
    ensures var m := Lookup(AvailableFrameSets(layout, sequenceName, files).incomplete, index).value;
            IsSubsequence(m, ExpectedKinds(layout, sequenceName)) &&
            forall k :: k in m <==> k in ExpectedKinds(layout, sequenceName) && !Names(MatchAll(layout, files), index, k)
  {
    var ms := MatchAll(layout, files);
    var g := Grouping(ms);
    var expected := ExpectedKinds(layout, sequenceName);
    var entries := MissingPerIndex(expected, g.order, g.kinds);
    var r := Classify(entries);
    assert AvailableFrameSets(layout, sequenceName, files) == r;
    var m := Lookup(r.incomplete, index).value;
    assert (index, m) in entries;
    MissingPerIndexMember(expected, g.order, g.kinds, index, m);
    GroupedKinds(ms, expected, index);
  }

  /** The complete list and the incomplete dictionary never share an index or repeat one. */
  lemma ClassificationDisjoint(layout: Layout, sequenceName: string, files: seq<string>)
    ensures var r := AvailableFrameSets(layout, sequenceName, files);
            Distinct(r.complete) && Distinct(Keys(r.incomplete)) &&
            forall x :: x in r.complete ==> x !in Keys(r.incomplete)
  {
    var g := Grouping(MatchAll(layout, files));
    ClassifyDistinct(MissingPerIndex(ExpectedKinds(layout, sequenceName), g.order, g.kinds));
  }

  // ---------------------------------------------------------------- the rest of FrameSequence

  /** `len(sequence)`: the number of complete frame sets. */
  function Length(sets: FrameSets): (n: nat)
    ensures n == |sets.complete|
  {
    |sets.complete|
  }

  /** The index argument of `get_frame`: a Python `int` or `str`. */
  datatype FrameIndex = IntIndex(n: int) | StrIndex(s: string)

  datatype FrameSetError =
    | FrameSetNotComplete(index: string, missing: seq<string>)  // IOError "Frame set is not complete"
    | FrameSetDoesNotExist(index: string)                       // IOError "Frame set does not exist"

  /** An `int` index is rendered with `"{:06d}"`; a `str` index is taken as given. */
  function FrameKey(index: FrameIndex): (key: string)
    ensures index.IntIndex? && index.n >= 0 ==> IsDigits(key) && |key| >= 6 && DecimalValue(key) == index.n
  {
    match index
    case IntIndex(n) => FormatPadded(n, 6)
    case StrIndex(s) => s
  }

  /** The checks `get_frame` makes before loading anything: the frame set to load, or why not. */
  function CheckFrame(sets: FrameSets, index: FrameIndex): (r: Result<string, FrameSetError>)
    ensures r.Ok? ==> r.value == FrameKey(index) && FrameKey(index) in sets.complete
    ensures r.Ok? <==> FrameKey(index) in sets.complete && FrameKey(index) !in Keys(sets.incomplete)
    ensures r.Err? && r.error.FrameSetNotComplete? ==>
              r.error.index == FrameKey(index) && (FrameKey(index), r.error.missing) in sets.incomplete
  {
    var key := FrameKey(index);
    match Lookup(sets.incomplete, key)
    case Some(missing) => Err(FrameSetNotComplete(key, missing))
    case None => if key in sets.complete then Ok(key) else Err(FrameSetDoesNotExist(key))
  }

  /** On a classified directory, `get_frame` goes ahead exactly for the indices all of whose
      expected files are listed; it names the missing kinds of an incomplete one. */
  lemma GetFrameChecks(layout: Layout, sequenceName: string, files: seq<string>, index: FrameIndex)
    ensures var key := FrameKey(index);
            var r := CheckFrame(AvailableFrameSets(layout, sequenceName, files), index);
            (r.Ok? <==> Seen(MatchAll(layout, files), key) &&
                        forall k :: k in ExpectedKinds(layout, sequenceName) ==> Names(MatchAll(layout, files), key, k)) &&
            (r.Err? && r.error.FrameSetNotComplete? ==>
               forall k :: k in r.error.missing <==>
                             k in ExpectedKinds(layout, sequenceName) && !Names(MatchAll(layout, files), key, k))
  {
    var key := FrameKey(index);
    var sets := AvailableFrameSets(layout, sequenceName, files);
    var r := CheckFrame(sets, index);
    assert r.Ok? <==> key in sets.complete by {
      ClassificationDisjoint(layout, sequenceName, files);
    }
    CompleteIffAllKinds(layout, sequenceName, files, key);
    if r.Err? && r.error.FrameSetNotComplete? {
      assert Lookup(sets.incomplete, key) == Some(r.error.missing);
      IncompleteListsMissing(layout, sequenceName, files, key);
    }
  }
}
