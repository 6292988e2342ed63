/**
  `train_model`: which files of the sample directory become training samples,
  and when the recognizer is trained at all. The directory listing is an input;
  reading an image is represented by the image it yields, or `None` when
  OpenCV cannot decode the file.
 */
module Dataset {
  import opened Wrappers
  import opened FaceCore

  /** A file in a user's directory: its name, its size in bytes and what `imread` returns for it. */
  datatype FileEntry = FileEntry(name: string, size: int, image: Option<Image>)

  /** An entry of the dataset directory: its name, whether it is a directory, and its files. */
  datatype DirEntry = DirEntry(name: string, isDir: bool, files: seq<FileEntry>)

  /** One training sample: a face and the label it is trained under. */
  datatype Sample = Sample(face: Image, id: int)

  /**
    What `train_model` ends with: no dataset directory, nothing to train, a
    label that the cast to 32-bit integers refuses (caught as "Training
    Error", nothing trained), or training on these lists.
   */
  datatype TrainOutcome = NoDataset | NoData | LabelOverflow | Trained(faces: seq<Image>, ids: seq<int>)

  /** `np.int32`'s range. */
  predicate IsInt32(n: int) { -0x8000_0000 <= n < 0x8000_0000 }

  /** Every sample's label fits `np.int32`. */
  predicate Int32Labels(samples: seq<Sample>) {
    forall i :: 0 <= i < |samples| ==> IsInt32(samples[i].id)
  }

  // ---------------------------------------------------------------------------
  // Directory names as integers: `int(name)` when reading, `str(user_id)` when writing.

  predicate IsDigit(c: char) { '0' <= c <= '9' }

  predicate AllDigits(s: string) { forall i :: 0 <= i < |s| ==> IsDigit(s[i]) }

  function DigitValue(c: char): nat
    requires IsDigit(c)
  {
    (c as int) - ('0' as int)
  }

  function DigitChar(d: nat): (c: char)
    requires d < 10
    ensures IsDigit(c) && DigitValue(c) == d
  {
    ('0' as int + d) as char
  }

  /** The value of a string of decimal digits, most significant first. */
  function DigitsValue(s: string): nat
    requires AllDigits(s)
  {
    if s == [] then 0 else DigitsValue(s[..|s| - 1]) * 10 + DigitValue(s[|s| - 1])
  }

  /** `int(s)` on an optional sign followed by decimal digits; `None` where Python raises `ValueError`. */
  function ParseInt(s: string): (r: Option<int>)
    ensures r.Some? ==> s != [] && (AllDigits(s) || (|s| > 1 && (s[0] == '-' || s[0] == '+') && AllDigits(s[1..])))
    ensures s != [] && AllDigits(s) ==> r == Some(DigitsValue(s))
    ensures |s| > 1 && (s[0] == '-' || s[0] == '+') && AllDigits(s[1..]) ==>
      r == Some(if s[0] == '-' then 0 - DigitsValue(s[1..]) else DigitsValue(s[1..]))
  {
    if |s| > 1 && (s[0] == '-' || s[0] == '+') && AllDigits(s[1..]) then
      Some(if s[0] == '-' then 0 - DigitsValue(s[1..]) else DigitsValue(s[1..]))
    else if s != [] && AllDigits(s) then
      Some(DigitsValue(s))
    else
      None
  }

  /** The decimal digits of a natural number, as `str` writes them. */
  function NatToString(n: nat): (s: string)
    ensures s != [] && AllDigits(s)
  {
    if n < 10 then [DigitChar(n)] else NatToString(n / 10) + [DigitChar(n % 10)]
  }

  /** `str(n)`, the name `save_samples` gives to a user's directory. */
  function IntToString(n: int): (s: string)
    ensures s != []
  {
    if n < 0 then "-" + NatToString(-n) else NatToString(n)
  }

  lemma {:induction false} NatToStringValue(n: nat)
    ensures DigitsValue(NatToString(n)) == n
  {
    var s := NatToString(n);
    if n >= 10 {
      NatToStringValue(n / 10);
      assert s[..|s| - 1] == NatToString(n / 10);
    }
  }

  /** The directory written for a user by `str(user_id)` is read back by `int(name)` as the same user. */
  lemma DirectoryNameRoundTrip(n: int)
    ensures ParseInt(IntToString(n)) == Some(n)
  {
    if n < 0 {
      NatToStringValue(-n);
      assert IntToString(n)[1..] == NatToString(-n);
    } else {
      NatToStringValue(n);
    }
  }

  // ---------------------------------------------------------------------------
  // Which files are used.

  predicate EndsWith(s: string, suffix: string) {
    |suffix| <= |s| && s[|s| - |suffix|..] == suffix
  }

  /** An image with at least one pixel (`face.size > 0`). */
  predicate NonEmpty(img: Image) { |img| > 0 && |img[0]| > 0 }

  /** A file whose name ends in `jpg`, whose size is not zero and that decodes to a non-empty image. */
  predicate Usable(f: FileEntry) {
    EndsWith(f.name, "jpg") && f.size != 0 && f.image.Some? && NonEmpty(f.image.value)
  }

  /** The label of an entry: its name as an integer, when it is a directory and the name parses. */
  function DirLabel(d: DirEntry): Option<int> {
    if d.isDir then ParseInt(d.name) else None
  }

  /** The samples a user's files give, in listing order. */
  function FileSamples(uid: int, files: seq<FileEntry>): seq<Sample> {
    if files == [] then []
    else
      var f := files[|files| - 1];
      FileSamples(uid, files[..|files| - 1]) + (if Usable(f) then [Sample(f.image.value, uid)] else [])
  }

  function DirSamples(d: DirEntry): seq<Sample> {
    match DirLabel(d)
    case None => []
    case Some(uid) => FileSamples(uid, d.files)
  }

  /** All samples of the dataset directory, in listing order. */
  function DatasetSamples(listing: seq<DirEntry>): seq<Sample> {
    if listing == [] then []
    else DatasetSamples(listing[..|listing| - 1]) + DirSamples(listing[|listing| - 1])
  }

  /** The parallel lists `faces` and `ids`, read as one list of samples. */
  function Pairs(faces: seq<Image>, ids: seq<int>): seq<Sample>
    requires |faces| == |ids|
  {
    seq(|faces|, k requires 0 <= k < |faces| => Sample(faces[k], ids[k]))
  }

  /** A sample comes from file `f` of directory `d`. */
  predicate SampleOf(d: DirEntry, f: FileEntry, s: Sample) {
    DirLabel(d) == Some(s.id) && Usable(f) && f.image.value == s.face
  }

  // ---------------------------------------------------------------------------
  // train_model

  /**
    `train_model` over the listing: the nested loops collect `faces` and `ids`
    side by side; the recognizer is trained (and written) only when at least
    one face was collected.
   */
  method TrainModel(datasetExists: bool, listing: seq<DirEntry>) returns (outcome: TrainOutcome)
    ensures !datasetExists <==> outcome.NoDataset?
    ensures datasetExists ==> (outcome.NoData? <==> DatasetSamples(listing) == [])
    ensures outcome.LabelOverflow? <==>
      datasetExists && DatasetSamples(listing) != [] && !Int32Labels(DatasetSamples(listing))
    ensures outcome.Trained? ==>
      |outcome.faces| == |outcome.ids| > 0 &&
      Pairs(outcome.faces, outcome.ids) == DatasetSamples(listing) &&
      Int32Labels(DatasetSamples(listing))
  {
    if !datasetExists {
      return NoDataset;
    }
    var faces: seq<Image> := [];
    var ids: seq<int> := [];
    for i := 0 to |listing|
      invariant |faces| == |ids|
      invariant Pairs(faces, ids) == DatasetSamples(listing[..i])
    {
      assert listing[..i + 1][..i] == listing[..i];
      var d := listing[i];
      if !d.isDir {
        continue;
      }
      var uid := ParseInt(d.name);
      if uid.None? {
        continue;
      }
      faces, ids := CollectUserFiles(faces, ids, uid.value, d.files);
    }
    assert listing[..|listing|] == listing;
    assert forall k :: 0 <= k < |ids| ==> Pairs(faces, ids)[k].id == ids[k];
    if faces == [] {
      outcome := NoData;
    } else if forall k :: 0 <= k < |ids| ==> IsInt32(ids[k]) {
      outcome := Trained(faces, ids);
    } else {
      outcome := LabelOverflow;
    }
  }

  /** The inner loop of `train_model`: append the usable files of one user's directory to `faces` and `ids`. */
  method CollectUserFiles(faces0: seq<Image>, ids0: seq<int>, uid: int, files: seq<FileEntry>)
    returns (faces: seq<Image>, ids: seq<int>)
    requires |faces0| == |ids0|
    ensures |faces| == |ids|
    ensures Pairs(faces, ids) == Pairs(faces0, ids0) + FileSamples(uid, files)
  {
    faces, ids := faces0, ids0;
    for j := 0 to |files|
      invariant |faces| == |ids|
      invariant Pairs(faces, ids) == Pairs(faces0, ids0) + FileSamples(uid, files[..j])
    {
      assert files[..j + 1][..j] == files[..j];
      var f := files[j];
      if EndsWith(f.name, "jpg") {
        if f.size == 0 {
          continue;
        }
        var face := f.image;
        if face.Some? && NonEmpty(face.value) {
          assert Pairs(faces + [face.value], ids + [uid]) == Pairs(faces, ids) + [Sample(face.value, uid)];
          faces := faces + [face.value];
          ids := ids + [uid];
        }
      }
    }
    assert files[..|files|] == files;
  }

  lemma {:induction false} FileSamplesSound(uid: int, files: seq<FileEntry>, s: Sample)
    requires s in FileSamples(uid, files)
    ensures s.id == uid
    ensures exists f :: f in files && Usable(f) && f.image.value == s.face
  {
    var init, f := files[..|files| - 1], files[|files| - 1];
    if s in FileSamples(uid, init) {
      FileSamplesSound(uid, init, s);
      var g :| g in init && Usable(g) && g.image.value == s.face;
      assert g in files;
    } else {
      assert f in files;
    }
  }

  lemma {:induction false} FileSamplesComplete(uid: int, files: seq<FileEntry>, f: FileEntry)
    requires f in files && Usable(f)
    ensures Sample(f.image.value, uid) in FileSamples(uid, files)
  {
    var init := files[..|files| - 1];
    if f != files[|files| - 1] {
      assert f in init by {
        var k :| 0 <= k < |files| && files[k] == f;
        assert k < |files| - 1 && init[k] == f;
      }
      FileSamplesComplete(uid, init, f);
    }
  }

  /**
    Every training sample comes from a usable file of a directory whose name
    parses as the sample's label: faces and labels never drift apart.
   */
  lemma {:induction false} SampleProvenance(listing: seq<DirEntry>, s: Sample)
    requires s in DatasetSamples(listing)
    ensures exists d, f :: d in listing && f in d.files && SampleOf(d, f, s)
  {
    var init, d := listing[..|listing| - 1], listing[|listing| - 1];
    if s in DatasetSamples(init) {
      SampleProvenance(init, s);
      var d', f' :| d' in init && f' in d'.files && SampleOf(d', f', s);
      assert d' in listing;
    } else {
      assert s in DirSamples(d);
      FileSamplesSound(DirLabel(d).value, d.files, s);
      var f :| f in d.files && Usable(f) && f.image.value == s.face;
      assert d in listing && SampleOf(d, f, s);
    }
  }

  /** Every usable file of a directory with an integer name is trained on, under that integer. */
  lemma {:induction false} SampleCompleteness(listing: seq<DirEntry>, d: DirEntry, f: FileEntry)
    requires d in listing && f in d.files && DirLabel(d).Some? && Usable(f)
    ensures Sample(f.image.value, DirLabel(d).value) in DatasetSamples(listing)
  {
    var init := listing[..|listing| - 1];
    if d == listing[|listing| - 1] {
      FileSamplesComplete(DirLabel(d).value, d.files, f);
    } else {
      assert d in init by {
        var k :| 0 <= k < |listing| && listing[k] == d;
        assert k < |listing| - 1 && init[k] == d;
      }
      SampleCompleteness(init, d, f);
    }
  }
}
