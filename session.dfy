/** The record-and-analyze session: the choice of input device, the
    directories the session needs, the number of speaker clusters, the
    per-speaker voiceprint files and the summary row that lists them, the
    CSV logs that get a header only when they are created, and the search
    for earlier voiceprints that resemble this session's. The session id
    (`time.strftime("%Y%m%d_%H%M%S")`), the clustering, the embeddings and
    their similarity are parameters. */
module SessionPipeline {
  import opened Results
  import opened Text
  import opened Paths
  import opened Recorder

  const FINGERPRINT_DIR: string := "fingerprints"
  const SIMILARITY_THRESHOLD: real := 0.75
  const MAX_CLUSTERS: nat := 5

  /** The device the session records from: `--choose-device` first, then
      `--device-index` as given, then the strict search by `--device-name`. */
  function ChooseDevice(devices: seq<Device>, chooseDevice: bool, deviceIndex: Option<int>,
                        deviceName: Option<string>, default: Option<int>, choice: Option<int>)
    : (r: Result<int, DeviceError>)
    ensures chooseDevice ==> r == SelectInputDevice(devices, 1, choice)
    ensures !chooseDevice && deviceIndex.Some? ==> r == Ok(deviceIndex.value)
    ensures !chooseDevice && deviceIndex.None? ==> r == FindInputDevice(devices, deviceName, default)
    ensures r.Ok? && (chooseDevice || deviceIndex.None?) ==>
      0 <= r.value < |devices| && Capable(devices[r.value], 1)
    ensures !chooseDevice && deviceIndex.None? && Given(deviceName) ==>
      (r.Ok? <==> AnyMatch(devices, deviceName.value, 1))
  {
    if chooseDevice then SelectInputDevice(devices, 1, choice)
    else if deviceIndex.Some? then Ok(deviceIndex.value)
    else FindInputDevice(devices, deviceName, default)
  }

  /** What the entry point does before recording. */
  datatype Start =
    | Listed(menu: seq<(nat, string)>)   // `--list-devices`: print and exit
    | Prepared(dirs: seq<string>, device: Result<int, DeviceError>)

  /** `--list-devices` lists and exits before any directory is created or
      any device is resolved; otherwise the four working directories are
      created and then the device is chosen. */
  function StartSession(devices: seq<Device>, listDevices: bool, chooseDevice: bool, deviceIndex: Option<int>,
                        deviceName: Option<string>, default: Option<int>, choice: Option<int>)
    : (r: Start)
    ensures r.Listed? <==> listDevices
    ensures r.Listed? ==> r.menu == ListInputDevices(devices, 1)
    ensures r.Prepared? ==> (r.dirs == ["recordings", "enhanced", FINGERPRINT_DIR, "logs"] &&
                             r.device == ChooseDevice(devices, chooseDevice, deviceIndex, deviceName, default, choice))
  {
    if listDevices then Listed(ListInputDevices(devices, 1))
    else Prepared(["recordings", "enhanced", FINGERPRINT_DIR, "logs"],
                  ChooseDevice(devices, chooseDevice, deviceIndex, deviceName, default, choice))
  }

  /** `min(5, len(partials)) or 1`: between one and five clusters, never
      more than there are partial embeddings (unless there are none). */
  function NClusters(partials: nat): (n: nat)
    ensures 1 <= n <= MAX_CLUSTERS
    ensures partials > 0 ==> n <= partials
    ensures n == MAX_CLUSTERS <==> partials >= MAX_CLUSTERS
    ensures partials < MAX_CLUSTERS ==> n == partials || (partials == 0 && n == 1)
  {
    var m := if partials < MAX_CLUSTERS then partials else MAX_CLUSTERS;
    if m == 0 then 1 else m
  }

  /** The labels of `labels` below `bound`, in ascending order. */
  function LabelsBelow(labels: seq<nat>, bound: nat): (r: seq<nat>)
    ensures forall k, l :: 0 <= k < l < |r| ==> r[k] < r[l]
    ensures forall k :: 0 <= k < |r| ==> r[k] < bound && r[k] in labels
    ensures forall x :: x in labels && x < bound ==> x in r
    decreases bound
  {
    if bound == 0 then []
    else
      var prev := LabelsBelow(labels, bound - 1);
      if bound - 1 in labels then prev + [bound - 1] else prev
  }

  function MaxLabel(labels: seq<nat>): (m: nat)
    ensures forall k :: 0 <= k < |labels| ==> labels[k] <= m
    decreases |labels|
  {
    if labels == [] then 0
    else
      var m := MaxLabel(labels[1..]);
      assert forall k :: 1 <= k < |labels| ==> labels[k] == labels[1..][k - 1];
      if labels[0] > m then labels[0] else m
  }

  /** `sorted(set(labels))`: each label once, ascending. */
  function SortedLabels(labels: seq<nat>): (r: seq<nat>)
    ensures forall k, l :: 0 <= k < l < |r| ==> r[k] < r[l]
    ensures forall x :: x in r <==> x in labels
  {
    LabelsBelow(labels, MaxLabel(labels) + 1)
  }

  /** `set(labels)`. */
  function Elems(s: seq<nat>): set<nat>
  {
    set x | x in s
  }

  lemma ElemsCons(s: seq<nat>)
    requires s != []
    ensures Elems(s) == {s[0]} + Elems(s[1..])
  {
    forall x ensures x in Elems(s) <==> x in {s[0]} + Elems(s[1..]) {
      assert x in s <==> x == s[0] || x in s[1..];
    }
  }

  /** An ascending sequence holds as many values as its set. */
  lemma {:induction false} AscendingCard(s: seq<nat>)
    requires forall k, l :: 0 <= k < l < |s| ==> s[k] < s[l]
    ensures |Elems(s)| == |s|
    decreases |s|
  {
    if s != [] {
      AscendingCard(s[1..]);
      ElemsCons(s);
      assert forall k :: 0 <= k < |s| - 1 ==> s[1..][k] > s[0];
      assert s[0] !in Elems(s[1..]);
    }
  }

  /** `len(set(labels))` is the number of speaker files. */
  lemma SpeakerCount(labels: seq<nat>)
    ensures |Elems(labels)| == |SortedLabels(labels)|
  {
    var r := SortedLabels(labels);
    assert Elems(labels) == Elems(r);
    AscendingCard(r);
  }

  /** The voiceprint file of the whole session. */
  function FingerprintFile(sessionId: string): string
  {
    "voiceprint_" + sessionId + ".npy"
  }

  /** `fingerprints/voiceprint_{SESSION_ID}_speaker{idx + 1}.npy`. */
  function SpeakerPath(sessionId: string, idx: nat): string
  {
    FINGERPRINT_DIR + "/voiceprint_" + sessionId + "_speaker" + NatToString(idx + 1) + ".npy"
  }

  /** The base name recorded for the speaker with label `idx`. */
  function SpeakerFile(sessionId: string, idx: nat): string
  {
    Basename(SpeakerPath(sessionId, idx))
  }

  /** For a session id without '/', the recorded base name is
      `voiceprint_{SESSION_ID}_speaker{idx + 1}.npy`. */
  lemma SpeakerFileForm(sessionId: string, idx: nat)
    requires '/' !in sessionId
    ensures SpeakerFile(sessionId, idx) == "voiceprint_" + sessionId + "_speaker" + NatToString(idx + 1) + ".npy"
  {
    var name := "voiceprint_" + sessionId + "_speaker" + NatToString(idx + 1) + ".npy";
    assert SpeakerPath(sessionId, idx) == (FINGERPRINT_DIR + "/") + name;
    var digits := NatToString(idx + 1);
    assert name == "voiceprint_" + sessionId + "_speaker" + digits + ".npy";
    assert forall k :: 0 <= k < |digits| ==> digits[k] != '/';
    assert '/' !in name;
    AfterLastAppended(FINGERPRINT_DIR + "/", name, '/');
  }

  /** One speaker file per label, in the order of `labels`. */
  function SpeakerFilesOf(sessionId: string, labels: seq<nat>): (files: seq<string>)
    ensures |files| == |labels|
    ensures forall k :: 0 <= k < |labels| ==> files[k] == SpeakerFile(sessionId, labels[k])
  {
    seq(|labels|, k requires 0 <= k < |labels| => SpeakerFile(sessionId, labels[k]))
  }

  /** The loop of `fingerprint_audio` that writes one voiceprint per
      distinct label, in ascending label order, and records its base name. */
  method WriteSpeakerFiles(sessionId: string, labels: seq<nat>) returns (speakerFiles: seq<string>)
    ensures speakerFiles == SpeakerFilesOf(sessionId, SortedLabels(labels))
  {
    var order := SortedLabels(labels);
    speakerFiles := [];
    for i := 0 to |order|
      invariant speakerFiles == SpeakerFilesOf(sessionId, order[..i])
    {
      var outFile := SpeakerPath(sessionId, order[i]);
      var name := Basename(outFile);
      assert name == SpeakerFile(sessionId, order[i]);
      SpeakerFilesOfSnoc(sessionId, order, i);
      speakerFiles := speakerFiles + [name];
    }
    assert order[..|order|] == order;
  }

  /** One more label adds its speaker file at the end. */
  lemma SpeakerFilesOfSnoc(sessionId: string, labels: seq<nat>, i: nat)
    requires i < |labels|
    ensures SpeakerFilesOf(sessionId, labels[..i + 1]) ==
      SpeakerFilesOf(sessionId, labels[..i]) + [SpeakerFile(sessionId, labels[i])]
  {
    var longer, shorter := labels[..i + 1], labels[..i];
    var a := SpeakerFilesOf(sessionId, longer);
    var b := SpeakerFilesOf(sessionId, shorter) + [SpeakerFile(sessionId, labels[i])];
    assert |a| == |b| == i + 1;
    forall k | 0 <= k < i + 1 ensures a[k] == b[k] {
      if k < i {
        assert longer[k] == shorter[k];
      } else {
        assert longer[k] == labels[i];
      }
    }
  }

  /** Different labels give different speaker file names. */
  lemma SpeakerFileInjective(sessionId: string, a: nat, b: nat)
    requires '/' !in sessionId
    requires SpeakerFile(sessionId, a) == SpeakerFile(sessionId, b)
    ensures a == b
  {
    SpeakerFileForm(sessionId, a);
    SpeakerFileForm(sessionId, b);
    var p := "voiceprint_" + sessionId + "_speaker";
    var da, db := NatToString(a + 1), NatToString(b + 1);
    var s := p + da + ".npy";
    assert s == p + db + ".npy";
    assert |da| == |db|;
    assert da == s[|p|..|p| + |da|];
    assert db == (p + db + ".npy")[|p|..|p| + |db|];
    NatToStringInjective(a + 1, b + 1);
  }

  /** The session's speaker files are pairwise distinct. */
  lemma SpeakerFilesDistinct(sessionId: string, labels: seq<nat>)
    requires '/' !in sessionId
    ensures var files := SpeakerFilesOf(sessionId, SortedLabels(labels));
      forall k, l :: 0 <= k < l < |files| ==> files[k] != files[l]
  {
    var order := SortedLabels(labels);
    var files := SpeakerFilesOf(sessionId, order);
    forall k, l | 0 <= k < l < |files| ensures files[k] != files[l] {
      if files[k] == files[l] {
        SpeakerFileInjective(sessionId, order[k], order[l]);
      }
    }
  }

  /** The row appended to the speaker summary. */
  datatype SummaryRow = SummaryRow(sessionId: string, numSpeakers: nat, speakerFiles: string)

  /** `[SESSION_ID, len(set(labels)), ";".join(speaker_files)]`. */
  function Summary(sessionId: string, labels: seq<nat>, speakerFiles: seq<string>): (row: SummaryRow)
    ensures row.sessionId == sessionId && row.numSpeakers == |Elems(labels)|
    ensures |speakerFiles| >= 1 && (forall k :: 0 <= k < |speakerFiles| ==> ';' !in speakerFiles[k]) ==>
      Split(row.speakerFiles, ';') == speakerFiles
  {
    assert |speakerFiles| >= 1 && (forall k :: 0 <= k < |speakerFiles| ==> ';' !in speakerFiles[k]) ==>
      Split(JoinWith(speakerFiles, ";"), ';') == speakerFiles by {
      if |speakerFiles| >= 1 && (forall k :: 0 <= k < |speakerFiles| ==> ';' !in speakerFiles[k]) {
        SplitJoin(speakerFiles, ';');
      }
    }
    SummaryRow(sessionId, |Elems(labels)|, JoinWith(speakerFiles, ";"))
  }

  /** The summary names as many speakers as there are speaker files. */
  lemma SummaryCountsFiles(sessionId: string, labels: seq<nat>)
    ensures var files := SpeakerFilesOf(sessionId, SortedLabels(labels));
      Summary(sessionId, labels, files).numSpeakers == |files|
  {
    SpeakerCount(labels);
  }

  /** Files that are created on their first append. */
  class CsvLogs {
    /** The lines of each existing file. */
    var files: map<string, seq<seq<string>>>

    constructor ()
      ensures files == map[]
    {
      files := map[];
    }

    /** Append `row`, preceded by `header` only when the file does not
        exist yet (`os.path.exists` before opening in append mode). */
    method Append(path: string, header: seq<string>, row: seq<string>)
      modifies this
      ensures path !in old(files) ==> files == old(files)[path := [header, row]]
      ensures path in old(files) ==> files == old(files)[path := old(files)[path] + [row]]
    {
      var existed := path in files;
      if !existed {
        files := files[path := [header, row]];
      } else {
        files := files[path := files[path] + [row]];
      }
    }

    /** However many sessions append to a log, it starts with exactly one
        header line. */
    method AppendTwice(path: string, header: seq<string>, row1: seq<string>, row2: seq<string>)
      requires path !in files
      modifies this
      ensures files == old(files)[path := [header, row1, row2]]
    {
      Append(path, header, row1);
      Append(path, header, row2);
      assert [header, row1] + [row2] == [header, row1, row2];
    }
  }

  /** A stored voiceprint is compared only when it is a ".npy" file that
      does not belong to this session. */
  predicate Considered(sessionId: string, file: string)
  {
    EndsWith(file, ".npy") && !Contains(file, sessionId)
  }

  /** The matches `compare_with_existing` reports for the listing of the
      fingerprint directory, each with its similarity; `similarity(path)`
      is `np.inner(embed, np.load(path))`. */
  function MatchesOf(sessionId: string, listing: seq<string>, similarity: string -> real): (r: seq<(string, real)>)
    ensures |r| <= |listing|
    ensures forall k :: 0 <= k < |r| ==>
      r[k].0 in listing && Considered(sessionId, r[k].0) &&
      r[k].1 == similarity(Join(FINGERPRINT_DIR, r[k].0)) && r[k].1 > SIMILARITY_THRESHOLD
    decreases |listing|
  {
    if listing == [] then []
    else
      var prev := MatchesOf(sessionId, listing[..|listing| - 1], similarity);
      var f := listing[|listing| - 1];
      var s := similarity(Join(FINGERPRINT_DIR, f));
      if Considered(sessionId, f) && s > SIMILARITY_THRESHOLD then prev + [(f, s)] else prev
  }

  /** Every listed file that is considered and similar enough is reported. */
  lemma {:induction false} MatchesComplete(sessionId: string, listing: seq<string>, similarity: string -> real, i: nat)
    requires i < |listing| && Considered(sessionId, listing[i])
    requires similarity(Join(FINGERPRINT_DIR, listing[i])) > SIMILARITY_THRESHOLD
    ensures (listing[i], similarity(Join(FINGERPRINT_DIR, listing[i]))) in MatchesOf(sessionId, listing, similarity)
    decreases |listing|
  {
    if i < |listing| - 1 {
      MatchesComplete(sessionId, listing[..|listing| - 1], similarity, i);
    }
  }

  /** `compare_with_existing(embed)`, as the loop appends to `match_log`. */
  method CompareWithExisting(sessionId: string, listing: seq<string>, similarity: string -> real)
    returns (matchLog: seq<(string, real)>)
    ensures matchLog == MatchesOf(sessionId, listing, similarity)
  {
    matchLog := [];
    for i := 0 to |listing|
      invariant matchLog == MatchesOf(sessionId, listing[..i], similarity)
    {
      var f := listing[i];
      assert listing[..i + 1][..i] == listing[..i];
      if EndsWith(f, ".npy") && !Contains(f, sessionId) {
        var s := similarity(Join(FINGERPRINT_DIR, f));
        if s > SIMILARITY_THRESHOLD {
          matchLog := matchLog + [(f, s)];
        }
      }
    }
    assert listing[..|listing|] == listing;
  }

  /** The session's own voiceprints are never compared with it. */
  lemma OwnFilesSkipped(sessionId: string, idx: nat)
    requires '/' !in sessionId
    ensures !Considered(sessionId, FingerprintFile(sessionId))
    ensures !Considered(sessionId, SpeakerFile(sessionId, idx))
  {
    var p := "voiceprint_";
    var f := FingerprintFile(sessionId);
    assert f[|p|..|p| + |sessionId|] == sessionId;
    assert OccursAt(f, sessionId, |p|);
    var g := SpeakerFile(sessionId, idx);
    SpeakerFileForm(sessionId, idx);
    assert g[|p|..|p| + |sessionId|] == sessionId;
    assert OccursAt(g, sessionId, |p|);
  }
}
