/** The speaker database: embeddings saved as `<name>.npy` files in
    SPEAKER_DB_PATH, loaded back into a dictionary keyed by the name
    derived from each file name, and matched against a new embedding by
    the first known speaker closer than a threshold. Embeddings are
    sequences of reals; the cosine distance, `np.save` and `np.load` are
    parameters. */
module SpeakerRecognition {
  import opened Results
  import opened Text
  import opened Paths

  const SPEAKER_DB_PATH: string := "scripts/speakers"
  const NPY: string := ".npy"
  const DEFAULT_THRESHOLD: real := 0.3

  type Embedding = seq<real>

  /** A Python dict: its entries in insertion order. */
  type Speakers = seq<(string, Embedding)>

  function Keys(d: Speakers): (ks: seq<string>)
    ensures |ks| == |d| && forall i :: 0 <= i < |d| ==> ks[i] == d[i].0
  {
    seq(|d|, i requires 0 <= i < |d| => d[i].0)
  }

  predicate DistinctKeys(d: Speakers)
  {
    forall i, j :: 0 <= i < j < |d| ==> d[i].0 != d[j].0
  }

  /** `d.get(k)`. */
  function Lookup(d: Speakers, k: string): (r: Option<Embedding>)
    ensures r.None? <==> k !in Keys(d)
    ensures r.Some? ==> (k, r.value) in d
    decreases |d|
  {
    if d == [] then None
    else if d[0].0 == k then Some(d[0].1)
    else
      assert Keys(d) == [d[0].0] + Keys(d[1..]);
      Lookup(d[1..], k)
  }

  lemma KeysCons(x: (string, Embedding), d: Speakers)
    ensures Keys([x] + d) == [x.0] + Keys(d)
  {
    var a, b := Keys([x] + d), [x.0] + Keys(d);
    assert |a| == |b|;
    forall i | 0 <= i < |a| ensures a[i] == b[i] {
      if i > 0 {
        assert ([x] + d)[i] == d[i - 1];
      }
    }
  }

  /** A key absent from a dict with distinct keys can be put in front. */
  lemma ConsDistinct(x: (string, Embedding), d: Speakers)
    requires DistinctKeys(d) && x.0 !in Keys(d)
    ensures DistinctKeys([x] + d)
  {
    var r := [x] + d;
    forall i, j | 0 <= i < j < |r| ensures r[i].0 != r[j].0 {
      if i == 0 {
        assert r[j].0 == Keys(d)[j - 1];
      } else {
        assert r[i] == d[i - 1] && r[j] == d[j - 1];
      }
    }
  }

  /** `d[k] = v`: an existing key keeps its place and takes the new value;
      a new key is appended. */
  function Put(d: Speakers, k: string, v: Embedding): (r: Speakers)
    requires DistinctKeys(d)
    ensures DistinctKeys(r)
    ensures Keys(r) == if k in Keys(d) then Keys(d) else Keys(d) + [k]
    decreases |d|
  {
    if d == [] then [(k, v)]
    else
      var tail := d[1..];
      assert d == [d[0]] + tail;
      KeysCons(d[0], tail);
      assert DistinctKeys(tail) && d[0].0 !in Keys(tail) by {
        forall j | 0 <= j < |tail| ensures tail[j] == d[j + 1] { }
      }
      if d[0].0 == k then
        KeysCons((k, v), tail);
        ConsDistinct((k, v), tail);
        [(k, v)] + tail
      else
        var rest := Put(tail, k, v);
        KeysCons(d[0], rest);
        ConsDistinct(d[0], rest);
        [d[0]] + rest
  }

  /** After `d[k] = v`, `k` maps to `v` and every other key to what it did. */
  lemma {:induction false} PutLookup(d: Speakers, k: string, v: Embedding, k': string)
    requires DistinctKeys(d)
    ensures Lookup(Put(d, k, v), k') == if k' == k then Some(v) else Lookup(d, k')
    decreases |d|
  {
    if d != [] && d[0].0 != k {
      PutLookup(d[1..], k, v, k');
      assert Put(d, k, v)[1..] == Put(d[1..], k, v);
    }
  }

  /** `file.replace(".npy", "")`: every occurrence is removed, not only a
      trailing one. */
  function NameOf(file: string): (name: string)
    ensures |name| <= |file|
  {
    RemoveAll(file, NPY)
  }

  /** Every ".npy" goes, wherever it stands: a name free of ".npy"
      followed by ".npy" keeps the name and the removal carries on, so
      "x.npy.npy" and "x.npy" both name the speaker "x". */
  lemma NameOfStrips(name: string, rest: string)
    requires !Contains(name, NPY)
    ensures NameOf(name + NPY + rest) == name + NameOf(rest)
    ensures NameOf(name + NPY) == name
    ensures NameOf(name + NPY + NPY) == name
  {
    NpyBorderless();
    RemoveAllAppended(name, NPY, rest);
    RemoveAllAppended(name, NPY, []);
    assert name + NPY + [] == name + NPY;
    RemoveAllAppended(name, NPY, NPY);
    RemoveAllAppended([], NPY, []);
    assert [] + NPY + [] == NPY;
  }

  /** Where `save_speaker(name, ...)` writes the embedding. */
  function SavePath(name: string): (p: string)
    ensures EndsWith(p, name + NPY)
    ensures (|name| == 0 || name[0] != '/') ==> p == SPEAKER_DB_PATH + "/" + name + NPY
  {
    var file := name + NPY;
    assert !StartsWith(file, "/") <== (|name| == 0 || name[0] != '/') by {
      assert file[..1] == [file[0]];
    }
    Join(SPEAKER_DB_PATH, file)
  }

  /** The speakers `load_known_speakers()` returns for the directory
      listing `files`; `load(path)` is the embedding stored at `path`. */
  function LoadSpec(files: seq<string>, load: string -> Embedding): (d: Speakers)
    ensures DistinctKeys(d)
    decreases |files|
  {
    if files == [] then []
    else
      var prev := LoadSpec(files[..|files| - 1], load);
      var file := files[|files| - 1];
      if EndsWith(file, NPY) then Put(prev, NameOf(file), load(Join(SPEAKER_DB_PATH, file)))
      else prev
  }

  /** `load_known_speakers()`, entry by entry as the loop fills the dict. */
  method LoadKnownSpeakers(listing: seq<string>, load: string -> Embedding) returns (speakers: Speakers)
    ensures speakers == LoadSpec(listing, load)
  {
    speakers := [];
    for i := 0 to |listing|
      invariant speakers == LoadSpec(listing[..i], load)
    {
      var file := listing[i];
      assert listing[..i + 1][..i] == listing[..i];
      if EndsWith(file, NPY) {
        var name := RemoveAll(file, NPY);
        var embedding := load(Join(SPEAKER_DB_PATH, file));
        speakers := Put(speakers, name, embedding);
      }
    }
    assert listing[..|listing|] == listing;
  }

  /** The loaded names are exactly the names derived from the listed
      ".npy" files; no other file contributes. */
  lemma {:induction false} LoadedNames(files: seq<string>, load: string -> Embedding, k: string)
    ensures k in Keys(LoadSpec(files, load)) <==>
      exists i :: 0 <= i < |files| && EndsWith(files[i], NPY) && NameOf(files[i]) == k
    decreases |files|
  {
    if files != [] {
      var init := files[..|files| - 1];
      LoadedNames(init, load, k);
      assert forall i :: 0 <= i < |init| ==> init[i] == files[i];
    }
  }

  /** When several files derive one name, the last of them in listing
      order supplies the embedding. */
  lemma {:induction false} LaterFileWins(files: seq<string>, load: string -> Embedding, i: nat)
    requires i < |files| && EndsWith(files[i], NPY)
    requires forall j :: i < j < |files| && EndsWith(files[j], NPY) ==> NameOf(files[j]) != NameOf(files[i])
    ensures Lookup(LoadSpec(files, load), NameOf(files[i])) == Some(load(Join(SPEAKER_DB_PATH, files[i])))
    decreases |files|
  {
    var init := files[..|files| - 1];
    var file := files[|files| - 1];
    var name := NameOf(files[i]);
    if i < |files| - 1 {
      LaterFileWins(init, load, i);
      if EndsWith(file, NPY) {
        PutLookup(LoadSpec(init, load), NameOf(file), load(Join(SPEAKER_DB_PATH, file)), name);
      }
    } else {
      PutLookup(LoadSpec(init, load), name, load(Join(SPEAKER_DB_PATH, file)), name);
    }
  }

  /** `recognize_speaker(embedding, known_speakers, threshold)` from entry
      `from` on: the first name, in insertion order, whose distance is
      strictly below the threshold. */
  function RecognizeFrom(embedding: Embedding, known: Speakers, distance: (Embedding, Embedding) -> real,
                         threshold: real, from: nat): (r: Option<string>)
    requires from <= |known|
    ensures r.Some? ==> exists i :: (from <= i < |known| && known[i].0 == r.value &&
                                     distance(embedding, known[i].1) < threshold &&
                                     forall j :: from <= j < i ==> distance(embedding, known[j].1) >= threshold)
    ensures r.None? <==> forall j :: from <= j < |known| ==> distance(embedding, known[j].1) >= threshold
    decreases |known| - from
  {
    if from == |known| then None
    else if distance(embedding, known[from].1) < threshold then Some(known[from].0)
    else RecognizeFrom(embedding, known, distance, threshold, from + 1)
  }

  function RecognizeSpeaker(embedding: Embedding, known: Speakers, distance: (Embedding, Embedding) -> real,
                            threshold: real): (r: Option<string>)
    ensures r.Some? ==> exists i :: (0 <= i < |known| && known[i].0 == r.value &&
                                     distance(embedding, known[i].1) < threshold &&
                                     forall j :: 0 <= j < i ==> distance(embedding, known[j].1) >= threshold)
    ensures r.None? <==> forall j :: 0 <= j < |known| ==> distance(embedding, known[j].1) >= threshold
  {
    RecognizeFrom(embedding, known, distance, threshold, 0)
  }

  /** `recognize_speaker(embedding, known_speakers)` with its default
      threshold of 0.3. */
  function RecognizeByDefault(embedding: Embedding, known: Speakers, distance: (Embedding, Embedding) -> real)
    : (r: Option<string>)
    ensures r.Some? ==> exists i :: (0 <= i < |known| && known[i].0 == r.value &&
                                     distance(embedding, known[i].1) < 0.3 &&
                                     forall j :: 0 <= j < i ==> distance(embedding, known[j].1) >= 0.3)
    ensures r.None? <==> forall j :: 0 <= j < |known| ==> distance(embedding, known[j].1) >= 0.3
  {
    RecognizeSpeaker(embedding, known, distance, DEFAULT_THRESHOLD)
  }

  /** ".npy" cannot overlap itself. */
  lemma NpyBorderless()
    ensures Borderless(NPY)
  {
    assert NPY[1..] != NPY[..3] by { assert NPY[1..][0] != NPY[..3][0]; }
    assert NPY[2..] != NPY[..2] by { assert NPY[2..][0] != NPY[..2][0]; }
    assert NPY[3..] != NPY[..1] by { assert NPY[3..][0] != NPY[..1][0]; }
  }

  /** The file `save_speaker` writes is named `<name>.npy`. */
  lemma SavedFileName(name: string)
    requires '/' !in name
    ensures Basename(SavePath(name)) == name + NPY && EndsWith(name + NPY, NPY)
  {
    var file := name + NPY;
    assert '/' !in file by {
      assert forall k :: 0 <= k < |file| ==> file[k] == if k < |name| then name[k] else NPY[k - |name|];
    }
    BasenameJoin(SPEAKER_DB_PATH, file);
    assert file[|file| - |NPY|..] == NPY;
  }

  /** A speaker saved under a name free of ".npy" and '/' is loaded back
      under that same name, from the file `save_speaker` wrote. */
  lemma SaveThenLoad(name: string, others: seq<string>, load: string -> Embedding)
    requires !Contains(name, NPY) && '/' !in name
    requires forall j :: 0 <= j < |others| && EndsWith(others[j], NPY) ==> NameOf(others[j]) != name
    ensures var file := Basename(SavePath(name));
      && file == name + NPY
      && Lookup(LoadSpec([file] + others, load), name) == Some(load(Join(SPEAKER_DB_PATH, file)))
  {
    var file := name + NPY;
    NameOfStrips(name, "");
    SavedFileName(name);
    var files := [file] + others;
    assert files[0] == file && EndsWith(file, NPY);
    forall j | 0 < j < |files| && EndsWith(files[j], NPY) ensures NameOf(files[j]) != NameOf(files[0]) {
      assert files[j] == others[j - 1];
    }
    LaterFileWins(files, load, 0);
  }
}
