/**
 * The access facade of `frame_access.py`: the dataset inventory (`FrameAccessor`), the lookup
 * of a frame from a loosely typed description, the `frames_info` overview and the
 * `FrameAccessObject` that holds an ordered list of descriptors. Directory listings are data;
 * loading a frame's files is represented by the descriptor of the frame that would be loaded.
 */
module FrameAccess {
  import opened PyText
  import opened Identifiers
  import opened FrameSets

  /** The identity of a frame: its sequence and its frame set. */
  datatype Descriptor = Descriptor(frameSequence: string, frame: string)

  /** The directory a frame sequence lives in: `data_syn` at the top, any other in `data/`. */
  datatype Directory = DataSynDirectory | DataDirectory(name: string)

  /** What the file system shows a `FrameAccessor`: the entries of `data/`, whether `data_syn`
      exists, and the listing of each sequence directory (an absent key lists nothing). */
  datatype Dataset = Dataset(dataSequences: seq<string>, hasDataSyn: bool, listing: map<Directory, seq<string>>)

  function Listing(d: Dataset, dir: Directory): seq<string> {
    if dir in d.listing then d.listing[dir] else []
  }

  /** `get_available_frame_sequences()`: the entries of `data/`, then `data_syn` if it exists. */
  function AvailableFrameSequences(d: Dataset): (r: seq<string>)
    ensures forall s :: s in r <==> s in d.dataSequences || (d.hasDataSyn && s == DataSynName)
  {
    d.dataSequences + if d.hasDataSyn then [DataSynName] else []
  }

  // ---------------------------------------------------------------- get_frame_sequence

  /** A frame sequence: the directory it lives in. Its name is the last path component. */
  datatype FrameSequence = FrameSequence(directory: Directory)

  /** The directory `get_frame_sequence` opens for an index. */
  function DirectoryOf(index: string): (dir: Directory)
    ensures dir == DataSynDirectory <==> index == DataSynName
  {
    if index == DataSynName then DataSynDirectory else DataDirectory(index)
  }

  function SequenceName(s: FrameSequence): string {
    match s.directory
    case DataSynDirectory => DataSynName
    case DataDirectory(name) => name
  }

  /** The frame sets of a sequence, as `frame_access.FrameSequence.get_available_frame_sets`
      classifies its listing. */
  function SequenceFrameSets(d: Dataset, s: FrameSequence): FrameSets {
    AvailableFrameSets(FrameAccessLayout, SequenceName(s), Listing(d, s.directory))
  }

  /** A sequence index as passed to `get_frame_sequence`: a Python `int` or `str`. */
  datatype SequenceIndex = IntSequence(n: int) | StrSequence(s: string)

  /** An `int` index is rendered with `"{:04d}"`. */
  function SequenceKey(index: SequenceIndex): (key: string)
    ensures index.IntSequence? && index.n >= 0 ==> IsDigits(key) && |key| >= 4 && DecimalValue(key) == index.n
  {
    match index
    case IntSequence(n) => FormatPadded(n, 4)
    case StrSequence(s) => s
  }

  /** `get_frame_sequence(index)`: `data_syn` names the top-level directory, any other index a
      directory in `data/`; an index that is not available is an IOError carrying the index. */
  function GetFrameSequence(d: Dataset, index: SequenceIndex): (r: Result<FrameSequence, string>)
    ensures r.Ok? <==> SequenceKey(index) in AvailableFrameSequences(d)
    ensures r.Ok? ==> SequenceName(r.value) == SequenceKey(index)
    ensures r.Ok? ==> r.value.directory == DirectoryOf(SequenceKey(index))
    ensures r.Err? ==> r.error == SequenceKey(index)
  {
    var key := SequenceKey(index);
    if key !in AvailableFrameSequences(d) then Err(key) else Ok(FrameSequence(DirectoryOf(key)))
  }

  // ---------------------------------------------------------------- FrameAccessor.get_frame

  /** A value handed to `get_frame`: only `str` and `int` are accepted. */
  datatype PyValue = PyStr(s: string) | PyInteger(n: int) | PyOther

  /** `str(v)` for a `str` or an `int`. */
  function PyStrOf(v: PyValue): (r: string)
    requires !v.PyOther?
    ensures v.PyInteger? && v.n >= 0 ==> IsDigits(r) && DecimalValue(r) == v.n
  {
    match v
    case PyStr(s) => s
    case PyInteger(n) =>
      DecimalRoundTrip(if n >= 0 then n else -n);
      if n >= 0 then Decimal(n) else "-" + Decimal(-n)
  }

  datatype AccessError =
    | DescriptionTypeError                          // TypeError: not a str or int
    | DescriptionInvalid(normalizeError: NormalizeError)  // raised by the normalizer
    | SequenceDoesNotExist(index: string)                 // IOError from get_frame_sequence
    | FrameSetUnavailable(frameSetError: FrameSetError)   // IOError from FrameSequence.get_frame

  /** The sequence part: `data_syn` is kept, anything else is normalized to four digits. */
  function SequencePart(s: string): (r: Result<string, NormalizeError>)
    ensures s == DataSynName ==> r == Ok(s)
    ensures s != DataSynName ==> r == NormalizeElement(s, Sequence)
  {
    if s == DataSynName then Ok(s) else NormalizeElement(s, Sequence)
  }

  /** The first half of `FrameAccessor.get_frame`: the type check and the normalization of
      both parts, giving the descriptor to look up. */
  function NormalizeDescription(sequence: PyValue, frame: PyValue): (r: Result<Descriptor, AccessError>)
    ensures sequence.PyOther? || frame.PyOther? ==> r == Err(DescriptionTypeError)
    ensures r.Ok? <==> !sequence.PyOther? && !frame.PyOther? &&
                       SequencePart(PyStrOf(sequence)).Ok? && NormalizeElement(PyStrOf(frame), Frame).Ok?
    ensures r.Ok? ==> r.value == Descriptor(SequencePart(PyStrOf(sequence)).value,
                                            NormalizeElement(PyStrOf(frame), Frame).value)
  {
    if sequence.PyOther? || frame.PyOther? then Err(DescriptionTypeError)
    else
      match SequencePart(PyStrOf(sequence))
      case Err(e) => Err(DescriptionInvalid(e))
      case Ok(sequenceIndex) =>
        match NormalizeElement(PyStrOf(frame), Frame)
        case Err(e) => Err(DescriptionInvalid(e))
        case Ok(frameIndex) => Ok(Descriptor(sequenceIndex, frameIndex))
  }

  /** The second half: `get_frame_sequence(...).get_frame(...)` on normalized strings. The frame
      is loaded only when the sequence is available and the frame set is complete. */
  function LookUpFrame(d: Dataset, descriptor: Descriptor): (r: Result<Descriptor, AccessError>)
    ensures r.Ok? <==> descriptor.frameSequence in AvailableFrameSequences(d) &&
                       var sets := SequenceFrameSets(d, FrameSequence(DirectoryOf(descriptor.frameSequence)));
                       descriptor.frame in sets.complete && descriptor.frame !in Keys(sets.incomplete)
    ensures r.Ok? ==> r.value == descriptor
    ensures descriptor.frameSequence !in AvailableFrameSequences(d) ==>
              r == Err(SequenceDoesNotExist(descriptor.frameSequence))
  {
    match GetFrameSequence(d, StrSequence(descriptor.frameSequence))
    case Err(index) => Err(SequenceDoesNotExist(index))
    case Ok(s) =>
      match CheckFrame(SequenceFrameSets(d, s), StrIndex(descriptor.frame))
      case Err(e) => Err(FrameSetUnavailable(e))
      case Ok(index) => Ok(Descriptor(descriptor.frameSequence, index))
  }

  /** `FrameAccessor.get_frame(description)`: the frame that would be loaded, given by its
      descriptor, or the error raised first. */
  function AccessorGetFrame(d: Dataset, sequence: PyValue, frame: PyValue): (r: Result<Descriptor, AccessError>)
    ensures NormalizeDescription(sequence, frame).Err? ==> r == NormalizeDescription(sequence, frame)
    ensures NormalizeDescription(sequence, frame).Ok? ==> r == LookUpFrame(d, NormalizeDescription(sequence, frame).value)
  {
    match NormalizeDescription(sequence, frame)
    case Err(e) => Err(e)
    case Ok(descriptor) => LookUpFrame(d, descriptor)
  }

  /** Descriptions that write the same two numbers name the same frame, whether as an `int`, as
      its decimal string or with leading zeros: both parts are normalized before any lookup. */
  lemma SameNumbersSameFrame(d: Dataset, s1: PyValue, f1: PyValue, s2: PyValue, f2: PyValue)
    requires !s1.PyOther? && !f1.PyOther? && !s2.PyOther? && !f2.PyOther?
    requires NormalizeElement(PyStrOf(s1), Sequence).Ok? && NormalizeElement(PyStrOf(s2), Sequence).Ok?
    requires NormalizeElement(PyStrOf(f1), Frame).Ok? && NormalizeElement(PyStrOf(f2), Frame).Ok?
    requires DecimalValue(PyStrOf(s1)) == DecimalValue(PyStrOf(s2))
    requires DecimalValue(PyStrOf(f1)) == DecimalValue(PyStrOf(f2))
    ensures NormalizeDescription(s1, f1) == NormalizeDescription(s2, f2)
    ensures AccessorGetFrame(d, s1, f1) == AccessorGetFrame(d, s2, f2)
  {
    NormalizeIgnoresLeadingZeros(PyStrOf(s1), PyStrOf(s2), Sequence);
    NormalizeIgnoresLeadingZeros(PyStrOf(f1), PyStrOf(f2), Frame);
    assert PyStrOf(s1)[0] != 'd' && PyStrOf(s2)[0] != 'd';
  }

  /** `(0, 1)`, `(0, '1')` and `('0', 1)` all normalize to sequence `0000`, frame `000001`. */
  lemma ZeroOneNormalized()
    ensures NormalizeDescription(PyInteger(0), PyInteger(1)) == Ok(Descriptor("0000", "000001"))
    ensures NormalizeDescription(PyInteger(0), PyStr("1")) == Ok(Descriptor("0000", "000001"))
    ensures NormalizeDescription(PyStr("0"), PyInteger(1)) == Ok(Descriptor("0000", "000001"))
  {
    SequenceZero();
    FrameOne();
  }

  lemma SequenceZero()
    ensures PyStrOf(PyInteger(0)) == "0" && SequencePart("0") == Ok("0000")
  {
    assert Decimal(0) == "0";
    assert ZeroPad("0", 4) == "0000";
  }

  lemma FrameOne()
    ensures PyStrOf(PyInteger(1)) == "1" && NormalizeElement("1", Frame) == Ok("000001")
  {
    assert Decimal(1) == "1";
    assert ZeroPad("1", 6) == "000001";
  }

  /** In a dataset where sequence `0000` has a complete frame set `000001`, each of those three
      descriptions yields that frame. */
  lemma ZeroOneExample(d: Dataset)
    requires "0000" in d.dataSequences
    requires "000001" in SequenceFrameSets(d, FrameSequence(DataDirectory("0000"))).complete
    requires "000001" !in Keys(SequenceFrameSets(d, FrameSequence(DataDirectory("0000"))).incomplete)
    ensures AccessorGetFrame(d, PyInteger(0), PyInteger(1)) == Ok(Descriptor("0000", "000001"))
    ensures AccessorGetFrame(d, PyInteger(0), PyStr("1")) == Ok(Descriptor("0000", "000001"))
    ensures AccessorGetFrame(d, PyStr("0"), PyInteger(1)) == Ok(Descriptor("0000", "000001"))
  {
    ZeroOneNormalized();
    var descriptor := Descriptor("0000", "000001");
    assert DirectoryOf("0000") == DataDirectory("0000");
    assert LookUpFrame(d, descriptor) == Ok(descriptor);
  }

  // ---------------------------------------------------------------- frames_info

  /** One sequence's entry of `frames_info()`: complete frame sets map to None, incomplete ones
      to their missing kinds. */
  type FrameSetsInfo = seq<(string, Option<seq<string>>)>

  /** The first loop filling `frame_sets` in `frames_info`: every complete set maps to None. */
  function CompleteEntries(complete: seq<string>): (r: FrameSetsInfo)
    ensures |r| == |complete| && forall i :: 0 <= i < |r| ==> r[i] == (complete[i], None)
  {
    if complete == [] then [] else CompleteEntries(complete[..|complete| - 1]) + [(complete[|complete| - 1], None)]
  }

  /** The second loop: every incomplete set maps to its missing kinds. */
  function IncompleteEntries(incomplete: seq<(string, seq<string>)>): (r: FrameSetsInfo)
    ensures |r| == |incomplete| && forall i :: 0 <= i < |r| ==> r[i] == (incomplete[i].0, Some(incomplete[i].1))
  {
    if incomplete == [] then []
    else IncompleteEntries(incomplete[..|incomplete| - 1]) + [(incomplete[|incomplete| - 1].0, Some(incomplete[|incomplete| - 1].1))]
  }

  /** One sequence's entry of `frames_info()`: complete sets in order, then incomplete ones. */
  function InfoOfFrameSets(sets: FrameSets): FrameSetsInfo {
    CompleteEntries(sets.complete) + IncompleteEntries(sets.incomplete)
  }

  /** In a sequence's entry a frame set maps to None exactly when it is complete, and to a list
      exactly when it is incomplete with that list of missing kinds. */
  lemma InfoOfFrameSetsEntries(sets: FrameSets, x: string, m: seq<string>)
    ensures (x, None) in InfoOfFrameSets(sets) <==> x in sets.complete
    ensures (x, Some(m)) in InfoOfFrameSets(sets) <==> (x, m) in sets.incomplete
  {
    var c := CompleteEntries(sets.complete);
    var n := IncompleteEntries(sets.incomplete);
    if (x, None) in c + n {
      var i :| 0 <= i < |c + n| && (c + n)[i] == (x, None);
      assert i < |c| && sets.complete[i] == x;
    }
    if x in sets.complete {
      var i :| 0 <= i < |sets.complete| && sets.complete[i] == x;
      assert (c + n)[i] == (x, None);
    }
    if (x, Some(m)) in c + n {
      var i :| 0 <= i < |c + n| && (c + n)[i] == (x, Some(m));
      assert i >= |c| && sets.incomplete[i - |c|] == (x, m);
    }
    if (x, m) in sets.incomplete {
      var i :| 0 <= i < |sets.incomplete| && sets.incomplete[i] == (x, m);
      assert (c + n)[|c| + i] == (x, Some(m));
    }
  }

  method CollectFrameSetsInfo(sets: FrameSets) returns (info: FrameSetsInfo)
    ensures info == InfoOfFrameSets(sets)
  {
    info := [];
    for i := 0 to |sets.complete|
      invariant info == CompleteEntries(sets.complete[..i])
    {
      assert sets.complete[..i + 1][..i] == sets.complete[..i];
      info := info + [(sets.complete[i], None)];
    }
    assert sets.complete[..|sets.complete|] == sets.complete;
    ghost var prefix := info;
    for i := 0 to |sets.incomplete|
      invariant info == prefix + IncompleteEntries(sets.incomplete[..i])
    {
      assert sets.incomplete[..i + 1][..i] == sets.incomplete[..i];
      info := info + [(sets.incomplete[i].0, Some(sets.incomplete[i].1))];
    }
    assert sets.incomplete[..|sets.incomplete|] == sets.incomplete;
  }

  /** `frames_info()` as a function: every available sequence in sorted order, with its entry. */
  function FramesInfo(d: Dataset): seq<(string, FrameSetsInfo)> {
    InfoOfSequences(d, SortStrings(AvailableFrameSequences(d)))
  }

  /** The entry `frames_info()` builds for one sequence name. */
  function EntryOf(d: Dataset, name: string): FrameSetsInfo {
    InfoOfFrameSets(SequenceFrameSets(d, FrameSequence(DirectoryOf(name))))
  }

  /** Where `key` first sits in an insertion-ordered dictionary, if anywhere. */
  function KeyIndex<V>(info: seq<(string, V)>, key: string): (r: Option<nat>)
    ensures r.Some? ==> r.value < |info| && info[r.value].0 == key
    ensures r.None? ==> forall k :: 0 <= k < |info| ==> info[k].0 != key
  {
    if info == [] then None
    else if info[0].0 == key then Some(0)
    else
      match KeyIndex(info[1..], key)
      case Some(k) => Some(k + 1)
      case None => None
  }

  /** `info[key] = value`: a present key keeps its place and takes the value, a new key goes last. */
  function SetEntry<V>(info: seq<(string, V)>, key: string, value: V): (r: seq<(string, V)>)
    ensures (forall k :: 0 <= k < |info| ==> info[k].0 != key) ==> r == info + [(key, value)]
    ensures (exists k :: 0 <= k < |info| && info[k].0 == key) ==>
              |r| == |info| && (forall k :: 0 <= k < |r| ==> r[k].0 == info[k].0)
              && (key, value) in r
  {
    match KeyIndex(info, key)
    case Some(k) => info[k := (key, value)]
    case None => info + [(key, value)]
  }

  /** The loop of `frames_info()` over the given names, assigning each its entry in turn. */
  function InfoOfSequences(d: Dataset, names: seq<string>): (r: seq<(string, FrameSetsInfo)>)
    ensures |r| <= |names|
  {
    AssignAll(names, name => EntryOf(d, name))
  }

  /** `for name in names: info[name] = entry(name)`, from an empty dictionary. */
  function AssignAll<V>(names: seq<string>, entry: string -> V): (r: seq<(string, V)>)
    ensures |r| <= |names|
  {
    if names == [] then []
    else
      var name := names[|names| - 1];
      SetEntry(AssignAll(names[..|names| - 1], entry), name, entry(name))
  }

  /** The assigned names are the keys of `info`, each once, each with its own entry. */
  ghost predicate AssignedFrom<V>(names: seq<string>, entry: string -> V, info: seq<(string, V)>) {
    && (forall i :: 0 <= i < |info| ==> info[i].1 == entry(info[i].0))
    && Distinct(Keys(info))
    && (forall x :: x in Keys(info) <==> x in names)
  }

  /**
   * After the loop every name is a key exactly once, with its entry; over sorted names the keys
   * come out in ascending order.
   */
  lemma {:induction false} AssignAllKeys<V>(names: seq<string>, entry: string -> V)
    ensures AssignedFrom(names, entry, AssignAll(names, entry))
    ensures Sorted(names) ==> Sorted(Keys(AssignAll(names, entry)))
  {
    if names != [] {
      var init, name := names[..|names| - 1], names[|names| - 1];
      assert names == init + [name];
      var prior := AssignAll(init, entry);
      AssignAllKeys(init, entry);
      AssignStep(init, entry, name, prior);
      if Sorted(names) {
        assert Sorted(init);
        forall i | 0 <= i < |prior| ensures LessEq(Keys(prior)[i], name) {
          assert Keys(prior)[i] in Keys(prior);
          var m :| 0 <= m < |init| && init[m] == Keys(prior)[i];
          assert names[m] == init[m];
        }
        SetEntrySorted(prior, name, entry(name));
      }
    }
  }

  /** One assignment of the loop keeps `AssignedFrom`. */
  lemma AssignStep<V>(init: seq<string>, entry: string -> V, name: string, prior: seq<(string, V)>)
    requires AssignedFrom(init, entry, prior)
    ensures AssignedFrom(init + [name], entry, SetEntry(prior, name, entry(name)))
  {
    var r := SetEntry(prior, name, entry(name));
    match KeyIndex(prior, name)
    case Some(k) =>
      assert r == prior;
    case None =>
      assert r == prior + [(name, entry(name))];
      assert Keys(r) == Keys(prior) + [name];
      assert name !in Keys(prior);
  }

  /** Assigning a key no smaller than every present key keeps the keys ascending. */
  lemma SetEntrySorted<V>(info: seq<(string, V)>, key: string, value: V)
    requires Sorted(Keys(info))
    requires forall i :: 0 <= i < |info| ==> LessEq(Keys(info)[i], key)
    ensures Sorted(Keys(SetEntry(info, key, value)))
  {
    var r := SetEntry(info, key, value);
    if KeyIndex(info, key).None? {
      assert Keys(r) == Keys(info) + [key];
    }
  }

  method CollectFramesInfo(d: Dataset) returns (info: seq<(string, FrameSetsInfo)>)
    ensures info == FramesInfo(d)
  {
    var available := SortStrings(AvailableFrameSequences(d));
    forall name | name in available ensures name in AvailableFrameSequences(d) {
      SortedMembers(AvailableFrameSequences(d), name);
    }
    info := CollectSequences(d, available);
  }

  /** The loop body's assignment for the `i`-th name extends the loop over the names before it. */
  lemma InfoOfSequencesSnoc(d: Dataset, names: seq<string>, i: nat)
    requires i < |names|
    ensures InfoOfSequences(d, names[..i + 1]) ==
              SetEntry(InfoOfSequences(d, names[..i]), names[i], EntryOf(d, names[i]))
  {
    assert names[..i + 1][..i] == names[..i];
  }

  /** The entries of the listed sequences, assigned one after the other. */
  method CollectSequences(d: Dataset, names: seq<string>) returns (info: seq<(string, FrameSetsInfo)>)
    requires forall name :: name in names ==> name in AvailableFrameSequences(d)
    ensures info == InfoOfSequences(d, names)
  {
    info := [];
    for i := 0 to |names|
      invariant info == InfoOfSequences(d, names[..i])
    {
      var name := names[i];
      var sequence := GetFrameSequence(d, StrSequence(name));
      assert sequence == Ok(FrameSequence(DirectoryOf(name))) by {
        assert name in names;
        assert SequenceKey(StrSequence(name)) == name;
      }
      var entry := CollectFrameSetsInfo(SequenceFrameSets(d, sequence.value));
      InfoOfSequencesSnoc(d, names, i);
      info := SetEntry(info, name, entry);
    }
    assert names[..|names|] == names;
  }

  /**
   * `frames_info()` has each available sequence as a key exactly once: a `data_syn` found both
   * in `data/` and at the top is one key.
   */
  lemma FramesInfoKeys(d: Dataset, name: string)
    ensures name in AvailableFrameSequences(d) <==> name in Keys(FramesInfo(d))
  {
    AssignAllKeys(SortStrings(AvailableFrameSequences(d)), name => EntryOf(d, name));
    SortedMembers(AvailableFrameSequences(d), name);
  }

  /** A `data_syn` entry in `data/` next to the top-level `data_syn` gives one key, not two. */
  lemma DataSynListedTwice()
    ensures var d := Dataset([DataSynName], true, map[]);
            FramesInfo(d) == [(DataSynName, EntryOf(d, DataSynName))]
  {
    var d := Dataset([DataSynName], true, map[]);
    assert AvailableFrameSequences(d) == [DataSynName, DataSynName];
    SortTwice(DataSynName);
    AssignTwice(DataSynName, name => EntryOf(d, name));
  }

  lemma SortTwice(x: string)
    ensures SortStrings([x, x]) == [x, x]
  {
    LessEqTotal(x, x);
    assert [x, x][1..] == [x];
  }

  /** Assigning the same name twice leaves one key. */
  lemma AssignTwice<V>(x: string, entry: string -> V)
    ensures AssignAll([x, x], entry) == [(x, entry(x))]
  {
    assert [x, x][..1] == [x];
    assert [x][..0] == [];
  }

  /** The keys of `frames_info()` are the available sequences in strictly ascending order; a frame
      set of a sequence maps to None exactly when it is complete and to its missing kinds exactly
      when it is incomplete. */
  lemma FramesInfoEntries(d: Dataset, i: nat, x: string, m: seq<string>)
    requires i < |FramesInfo(d)|
    ensures Sorted(SortStrings(AvailableFrameSequences(d)))
    ensures FramesInfo(d)[i].0 in AvailableFrameSequences(d)
    ensures forall j :: i < j < |FramesInfo(d)| ==>
              LessEq(FramesInfo(d)[i].0, FramesInfo(d)[j].0) && FramesInfo(d)[i].0 != FramesInfo(d)[j].0
    ensures var sets := SequenceFrameSets(d, FrameSequence(DirectoryOf(FramesInfo(d)[i].0)));
            ((x, None) in FramesInfo(d)[i].1 <==> x in sets.complete) &&
            ((x, Some(m)) in FramesInfo(d)[i].1 <==> (x, m) in sets.incomplete)
  {
    FramesInfoOrder(d, i);
    FramesInfoEntryAt(d, i);
    var name := FramesInfo(d)[i].0;
    InfoOfFrameSetsEntries(SequenceFrameSets(d, FrameSequence(DirectoryOf(name))), x, m);
  }

  /** Every later key of `frames_info()` is strictly greater. */
  lemma FramesInfoOrder(d: Dataset, i: nat)
    requires i < |FramesInfo(d)|
    ensures forall j :: i < j < |FramesInfo(d)| ==>
              LessEq(FramesInfo(d)[i].0, FramesInfo(d)[j].0) && FramesInfo(d)[i].0 != FramesInfo(d)[j].0
  {
    var info := FramesInfo(d);
    FramesInfoShape(d);
    forall j | i < j < |info| ensures LessEq(info[i].0, info[j].0) && info[i].0 != info[j].0 {
      KeysAscending(info, i, j);
    }
  }

  /** Each key of `frames_info()` is an available sequence and holds that sequence's entry. */
  lemma FramesInfoEntryAt(d: Dataset, i: nat)
    requires i < |FramesInfo(d)|
    ensures FramesInfo(d)[i].0 in AvailableFrameSequences(d)
    ensures FramesInfo(d)[i].1 == EntryOf(d, FramesInfo(d)[i].0)
  {
    var info := FramesInfo(d);
    FramesInfoShape(d);
    assert Keys(info)[i] == info[i].0;
    SortedMembers(AvailableFrameSequences(d), info[i].0);
  }

  /** The loop's invariant, for the sorted available sequences. */
  lemma FramesInfoShape(d: Dataset)
    ensures var info := FramesInfo(d);
            && Sorted(Keys(info)) && Distinct(Keys(info))
            && (forall x :: x in Keys(info) <==> x in SortStrings(AvailableFrameSequences(d)))
            && (forall i :: 0 <= i < |info| ==> info[i].1 == EntryOf(d, info[i].0))
  {
    AssignAllKeys(SortStrings(AvailableFrameSequences(d)), name => EntryOf(d, name));
  }

  /** Ascending distinct keys: a later key is strictly greater. */
  lemma KeysAscending<V>(info: seq<(string, V)>, i: nat, j: nat)
    requires Sorted(Keys(info)) && Distinct(Keys(info)) && i < j < |info|
    ensures LessEq(info[i].0, info[j].0) && info[i].0 != info[j].0
  {
    var keys := Keys(info);
    var a, b := info[i].0, info[j].0;
    assert keys[i] == a && keys[j] == b;
    assert LessEq(keys[i], keys[j]);
    assert keys[i] != keys[j];
  }

  // ---------------------------------------------------------------- FrameAccessObject

  /** Loading `items` one after the other, as a generator does, stopping at the first failure. */
  method LoadInOrder<T, F, E>(items: seq<T>, load: T -> Result<F, E>) returns (frames: seq<F>, failure: Option<E>)
    ensures |frames| <= |items|
    ensures forall i :: 0 <= i < |frames| ==> load(items[i]) == Ok(frames[i])
    ensures failure.None? ==> |frames| == |items|
    ensures failure.Some? ==> |frames| < |items| && load(items[|frames|]) == Err(failure.value)
  {
    frames := [];
    failure := None;
    var i := 0;
    while i < |items|
      invariant 0 <= i <= |items| && |frames| == i
      invariant forall k :: 0 <= k < i ==> load(items[k]) == Ok(frames[k])
    {
      var frame := load(items[i]);
      if frame.Err? {
        failure := Some(frame.error);
        return;
      }
      frames := frames + [frame.value];
      i := i + 1;
    }
  }

  datatype ItemError =
    | ItemTypeError               // TypeError: the item is not an int
    | IndexOutOfRange             // ValueError: outside [0, len)
    | LoadFailed(accessError: AccessError)

  /** A fixed dataset and an ordered, shuffleable list of descriptors. */
  class FrameAccessObject {
    const dataset: Dataset
    var descriptors: seq<Descriptor>

    constructor(dataset: Dataset, descriptors: seq<Descriptor>)
      ensures this.dataset == dataset && this.descriptors == descriptors
    {
      this.dataset := dataset;
      this.descriptors := descriptors;
    }

    /** `get_frame(descriptor)`: the accessor's lookup of a descriptor's two strings. The frame
        got is the descriptor's own, once both parts are normalized; it is got exactly when both
        parts normalize, the sequence is available and the frame set there is complete. */
    function GetFrame(descriptor: Descriptor): (r: Result<Descriptor, AccessError>)
      ensures r.Ok? ==> r.value.frameSequence in AvailableFrameSequences(dataset)
      ensures r.Ok? <==>
                && SequencePart(descriptor.frameSequence).Ok?
                && NormalizeElement(descriptor.frame, Frame).Ok?
                && var sequence := SequencePart(descriptor.frameSequence).value;
                   var frame := NormalizeElement(descriptor.frame, Frame).value;
                   var sets := SequenceFrameSets(dataset, FrameSequence(DirectoryOf(sequence)));
                   && sequence in AvailableFrameSequences(dataset)
                   && frame in sets.complete && frame !in Keys(sets.incomplete)
      ensures r.Ok? ==> r.value == Descriptor(SequencePart(descriptor.frameSequence).value,
                                              NormalizeElement(descriptor.frame, Frame).value)
    {
      AccessorGetFrame(dataset, PyStr(descriptor.frameSequence), PyStr(descriptor.frame))
    }

    /** `len(obj)`. */
    function Length(): (n: nat)
      reads this
      ensures n == |descriptors|
    {
      |descriptors|
    }

    /** `obj[item]`: a non-int is a TypeError, an index outside [0, len) a ValueError, and
        otherwise the frame of the descriptor at that position. */
    function GetItem(item: PyValue): (r: Result<Descriptor, ItemError>)
      reads this
      ensures !item.PyInteger? ==> r == Err(ItemTypeError)
      ensures item.PyInteger? && !(0 <= item.n < |descriptors|) ==> r == Err(IndexOutOfRange)
      ensures item.PyInteger? && 0 <= item.n < |descriptors| ==>
                (r.Ok? <==> GetFrame(descriptors[item.n]).Ok?) &&
                (r.Ok? ==> r == Ok(GetFrame(descriptors[item.n]).value))
    {
      if !item.PyInteger? then Err(ItemTypeError)
      else if 0 <= item.n < Length() then
        match GetFrame(descriptors[item.n])
        case Ok(frame) => Ok(frame)
        case Err(e) => Err(LoadFailed(e))
      else Err(IndexOutOfRange)
    }

    /** `get_descriptors()`: a copy, so later shuffles do not affect it. */
    method GetDescriptors() returns (copy: seq<Descriptor>)
      ensures copy == descriptors
    {
      copy := descriptors;
    }

    /** Iterating the object: the frames of the descriptors in order, up to the first descriptor
        whose frame cannot be loaded, whose error then ends the iteration. */
    method Iterate() returns (frames: seq<Descriptor>, failure: Option<AccessError>)
      ensures |frames| <= |descriptors|
      ensures forall i :: 0 <= i < |frames| ==> GetFrame(descriptors[i]) == Ok(frames[i])
      ensures failure.None? ==> |frames| == |descriptors|
      ensures failure.Some? ==> |frames| < |descriptors| && GetFrame(descriptors[|frames|]) == Err(failure.value)
    {
      frames, failure := LoadInOrder(descriptors, GetFrame);
    }

    /** `shuffle()`: `random.shuffle`'s Fisher-Yates pass from the back, the random draws given
        by `draw`: position i is swapped with position `draw(i) % (i + 1)`. Only the order of
        the descriptors changes. */
    method Shuffle(draw: nat -> nat)
      modifies this
      ensures |descriptors| == |old(descriptors)|
      ensures multiset(descriptors) == multiset(old(descriptors))
    {
      var i := |descriptors|;
      while i > 1
        invariant 0 <= i <= |descriptors| == |old(descriptors)|
        invariant multiset(descriptors) == multiset(old(descriptors))
      {
        i := i - 1;
        var j := draw(i) % (i + 1);
        var a, b := descriptors[i], descriptors[j];
        descriptors := descriptors[i := b][j := a];
      }
    }
  }
}
