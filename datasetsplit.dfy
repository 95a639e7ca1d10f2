/**
 * The last stage of the importer: the listing of the image directory is cut
 * into a test part and a trainval part, and each part becomes an image-set
 * manifest (`ImageSets/Main/test.txt`, `trainval.txt`) while the annotation
 * file of every listed image is renamed so that it no longer carries ".jpg".
 *
 * The file system is a set of paths. The listing order of the image directory
 * is whatever the operating system returns, so it is a parameter here.
 */
module DatasetSplit {
  import opened Wrappers
  import opened Text
  import opened Numeric

  // ---------------------------------------------------------------------------
  // images[:k] and images[k:]
  // ---------------------------------------------------------------------------

  /**
   * How Python turns a slice bound `i` into a position in a sequence of length
   * `n`: a negative bound counts from the end, and every bound is clamped into
   * [0, n].
   */
  function SliceBound(i: int, n: nat): (k: nat)
    ensures k <= n
    ensures 0 <= i <= n ==> k == i
    ensures -(n as int) <= i < 0 ==> k == n + i
    ensures i > n ==> k == n
    ensures i < -(n as int) ==> k == 0
  {
    if i < 0 then (if n + i < 0 then 0 else n + i)
    else if i <= n then i
    else n
  }

  datatype Split = Split(test: seq<string>, trainval: seq<string>)

  /** `int(len(images) * test_percent)`. */
  function TestCount(n: nat, percent: real): int
  {
    Trunc(Times(n, percent))
  }

  /** `images[:test_count]` and `images[test_count:]`: the two parts always rebuild the listing. */
  function SplitListing(images: seq<string>, percent: real): (s: Split)
    ensures s.test + s.trainval == images
  {
    var k := SliceBound(TestCount(|images|, percent), |images|);
    assert images[..k] + images[k..] == images;
    Split(images[..k], images[k..])
  }

  /**
   * For a percentage in [0, 1] the test part is the first
   * `int(len(images) * test_percent)` images: at most the product, and less than
   * one image short of it.
   */
  lemma SplitSizes(images: seq<string>, percent: real)
    requires 0.0 <= percent <= 1.0
    ensures var s := SplitListing(images, percent);
      && |s.test| == TestCount(|images|, percent)
      && |s.test| as real <= |images| as real * percent < |s.test| as real + 1.0
      && s.test == images[..|s.test|]
      && s.trainval == images[|s.test|..]
  {
    TimesFraction(|images|, percent);
    TimesIsProduct(|images|, percent);
    assert TestCount(|images|, percent) as real <= |images| as real;
  }

  /**
   * The argument is not range-checked: a negative percentage becomes a negative
   * slice bound, which counts from the end, so four images and -0.25 put the
   * first three into the test part.
   */
  lemma NegativePercent()
    ensures SplitListing(["a", "b", "c", "d"], -0.25) == Split(["a", "b", "c"], ["d"])
  {
    assert Times(4, -0.25) == -1.0;
  }

  /**
   * A percentage above one is not refused either: its bound lies past the end
   * of the listing, so every image goes into the test part and none into trainval.
   */
  lemma OversizePercent()
    ensures SplitListing(["a", "b"], 1.5) == Split(["a", "b"], [])
  {
    assert Times(2, 1.5) == 3.0;
  }

  // ---------------------------------------------------------------------------
  // process_anotation_dir
  // ---------------------------------------------------------------------------

  /** Where the importer wrote the annotation of the image file `member`. */
  function AnnotationPath(xmlDir: string, member: string): string
  {
    PathJoin(xmlDir, member + ".xml")
  }

  /** The new name of that annotation: every ".jpg" of the whole path deleted. */
  function RenameTarget(xmlDir: string, member: string): string
  {
    RemoveAll(AnnotationPath(xmlDir, member), ".jpg")
  }

  /** The image id the manifest lists for `member`. */
  function ManifestId(member: string): string
  {
    RemoveAll(member, ".jpg")
  }

  function ManifestLine(member: string): string
  {
    ManifestId(member) + "\n"
  }

  /** The manifest of a part when every rename succeeds: one line per member, in order. */
  function ManifestText(members: seq<string>): (t: string)
    ensures members == [] <==> t == []
  {
    if members == [] then [] else ManifestLine(members[0]) + ManifestText(members[1..])
  }

  /**
   * The outcome of writing one manifest: its text, the annotation files
   * afterwards, and how many members were handled before a rename failed
   * (all of them when none failed).
   */
  datatype ManifestRun = ManifestRun(text: string, files: set<string>, done: nat)

  /**
   * Each member in turn: its annotation file is renamed, and only then is its
   * line written; a missing annotation file makes the rename raise, which ends
   * the run with the lines written so far.
   */
  function Manifest(xmlDir: string, members: seq<string>, files: set<string>): (r: ManifestRun)
    ensures r.done <= |members|
  {
    if members == [] then ManifestRun([], files, 0)
    else
      var before := Manifest(xmlDir, members[..|members| - 1], files);
      var member := members[|members| - 1];
      var source := AnnotationPath(xmlDir, member);
      if before.done < |members| - 1 || source !in before.files then before
      else ManifestRun(before.text + ManifestLine(member),
                       before.files - {source} + {RenameTarget(xmlDir, member)},
                       |members|)
  }

  /** Once a rename has failed, later members change nothing. */
  lemma {:induction false} ManifestStops(xmlDir: string, members: seq<string>, files: set<string>, k: nat)
    requires k <= |members|
    requires Manifest(xmlDir, members[..k], files).done < k
    ensures Manifest(xmlDir, members, files) == Manifest(xmlDir, members[..k], files)
    decreases |members|
  {
    if k < |members| {
      var init := members[..|members| - 1];
      assert init[..k] == members[..k];
      ManifestStops(xmlDir, init, files, k);
    } else {
      assert members[..k] == members;
    }
  }

  lemma {:induction false} ManifestTextSnoc(members: seq<string>, member: string)
    ensures ManifestText(members + [member]) == ManifestText(members) + ManifestLine(member)
  {
    if members != [] {
      assert (members + [member])[1..] == members[1..] + [member];
      ManifestTextSnoc(members[1..], member);
    } else {
      assert ManifestText([member]) == ManifestLine(member) + ManifestText([]);
    }
  }

  /**
   * What a manifest holds is the lines of the members handled, in order; a run
   * that stops early stops exactly at the first member whose annotation file
   * is not there when its turn comes.
   */
  lemma ManifestPrefix(xmlDir: string, members: seq<string>, files: set<string>)
    ensures var r := Manifest(xmlDir, members, files);
      && r.text == ManifestText(members[..r.done])
      && (r.done < |members| ==>
            AnnotationPath(xmlDir, members[r.done]) !in Manifest(xmlDir, members[..r.done], files).files)
  {
    ManifestTextPrefix(xmlDir, members, files);
    ManifestStopsAtMissing(xmlDir, members, files);
  }

  lemma {:induction false} ManifestTextPrefix(xmlDir: string, members: seq<string>, files: set<string>)
    ensures var r := Manifest(xmlDir, members, files); r.text == ManifestText(members[..r.done])
    decreases |members|
  {
    if members != [] {
      var init := members[..|members| - 1];
      var member := members[|members| - 1];
      ManifestTextPrefix(xmlDir, init, files);
      var before := Manifest(xmlDir, init, files);
      if before.done == |init| && AnnotationPath(xmlDir, member) in before.files {
        assert members[..|members|] == init + [member];
        assert init[..|init|] == init;
        ManifestTextSnoc(init, member);
      } else {
        assert init[..before.done] == members[..before.done];
      }
    }
  }

  lemma {:induction false} ManifestStopsAtMissing(xmlDir: string, members: seq<string>, files: set<string>)
    ensures var r := Manifest(xmlDir, members, files);
      r.done < |members| ==>
        AnnotationPath(xmlDir, members[r.done]) !in Manifest(xmlDir, members[..r.done], files).files
    decreases |members|
  {
    if members != [] {
      var init := members[..|members| - 1];
      ManifestStopsAtMissing(xmlDir, init, files);
      var before := Manifest(xmlDir, init, files);
      if before.done < |init| {
        assert members[before.done] == init[before.done];
        assert init[..before.done] == members[..before.done];
      } else {
        assert members[..|init|] == init;
      }
    }
  }

  /** A run in which every annotation is found handles every member. */
  lemma ManifestComplete(xmlDir: string, members: seq<string>, files: set<string>)
    requires Manifest(xmlDir, members, files).done == |members|
    ensures Manifest(xmlDir, members, files).text == ManifestText(members)
  {
    ManifestPrefix(xmlDir, members, files);
    assert members[..|members|] == members;
  }

  /**
   * The loop of process_anotation_dir. The file system is passed in and
   * returned as a value.
   */
  method WriteManifest(xmlDir: string, members: seq<string>, files: set<string>)
    returns (text: string, after: set<string>, done: nat)
    ensures ManifestRun(text, after, done) == Manifest(xmlDir, members, files)
  {
    text, after, done := [], files, 0;
    var i := 0;
    while i < |members|
      invariant 0 <= i <= |members| && done == i
      invariant ManifestRun(text, after, done) == Manifest(xmlDir, members[..i], files)
    {
      var member := members[i];
      var source := AnnotationPath(xmlDir, member);
      assert members[..i + 1][..i] == members[..i];
      if source !in after {
        ManifestStops(xmlDir, members, files, i + 1);
        return;
      }
      after := after - {source} + {RenameTarget(xmlDir, member)};
      text := text + ManifestLine(member);
      i := i + 1;
      done := i;
    }
    assert members[..i] == members;
  }

  /**
   * The two manifests, trainval first; a failed rename raises out of the
   * script, so after a trainval manifest that stopped early there is no test
   * manifest at all.
   */
  datatype Manifests = Manifests(trainval: ManifestRun, test: Option<ManifestRun>)

  function WriteManifests(xmlDir: string, images: seq<string>, percent: real, files: set<string>): Manifests
  {
    var s := SplitListing(images, percent);
    var trainval := Manifest(xmlDir, s.trainval, files);
    if trainval.done < |s.trainval| then Manifests(trainval, None)
    else Manifests(trainval, Some(Manifest(xmlDir, s.test, trainval.files)))
  }

  /**
   * When every rename succeeds, the two manifests list the test part and the
   * trainval part in full, and together they list every image of the listing.
   */
  lemma ManifestsCoverListing(xmlDir: string, images: seq<string>, percent: real, files: set<string>)
    requires var m := WriteManifests(xmlDir, images, percent, files);
      m.test.Some? && m.test.value.done == |SplitListing(images, percent).test|
    ensures var m := WriteManifests(xmlDir, images, percent, files);
      var s := SplitListing(images, percent);
      && m.trainval.text == ManifestText(s.trainval)
      && m.test.value.text == ManifestText(s.test)
      && s.test + s.trainval == images
  {
    var s := SplitListing(images, percent);
    var trainval := Manifest(xmlDir, s.trainval, files);
    ManifestComplete(xmlDir, s.trainval, files);
    ManifestComplete(xmlDir, s.test, trainval.files);
  }

  /** A trainval manifest that stops early leaves the test part unwritten. */
  lemma NoTestAfterFailure(xmlDir: string, images: seq<string>, percent: real, files: set<string>)
    requires WriteManifests(xmlDir, images, percent, files).trainval.done < |SplitListing(images, percent).trainval|
    ensures WriteManifests(xmlDir, images, percent, files).test == None
    ensures var m := WriteManifests(xmlDir, images, percent, files);
      AnnotationPath(xmlDir, SplitListing(images, percent).trainval[m.trainval.done])
        !in Manifest(xmlDir, SplitListing(images, percent).trainval[..m.trainval.done], files).files
  {
    ManifestPrefix(xmlDir, SplitListing(images, percent).trainval, files);
  }

  // ---------------------------------------------------------------------------
  // What the manifest means for an image file named <id>.jpg
  // ---------------------------------------------------------------------------

  /** An image file `<id>.jpg` is listed as `<id>`. */
  lemma ImageMemberId(id: string)
    requires !Contains(id, ".jpg")
    ensures ManifestId(id + ".jpg") == id
  {
    RemoveAllTrailing(id, ".jpg");
  }

  /**
   * The annotation `<xmlDir>/<id>.jpg.xml` is renamed to `<xmlDir>/<id>.xml`,
   * the name under which the flattener opens it, provided ".jpg" occurs
   * nowhere else in the path.
   */
  lemma RenameDropsImageExtension(xmlDir: string, id: string)
    requires !Contains(PathJoin(xmlDir, id), ".jpg")
    ensures AnnotationPath(xmlDir, id + ".jpg") == PathJoin(xmlDir, id) + ".jpg" + ".xml"
    ensures RenameTarget(xmlDir, id + ".jpg") == PathJoin(xmlDir, id + ".xml")
  {
    var p := PathJoin(xmlDir, id);
    assert id + ".jpg" + ".xml" == id + (".jpg" + ".xml");
    PathJoinAppend(xmlDir, id, ".jpg" + ".xml");
    PathJoinAppend(xmlDir, id, ".xml");
    assert p + (".jpg" + ".xml") == p + ".jpg" + ".xml";
    ExtensionFacts();
    RemoveAllSplice(p, ".jpg", ".xml");
  }

  /** ".jpg" cannot overlap itself, and ".xml" holds no ".jpg". */
  lemma ExtensionFacts()
    ensures ".jpg"[0] !in ".jpg"[1..]
    ensures RemoveAll(".xml", ".jpg") == ".xml"
  {
    assert ".xml"[1] != ".jpg"[1] && !Contains(".xml"[1..], ".jpg");
    RemoveAllAbsent(".xml", ".jpg");
  }

  /**
   * Read back with `.strip().split()`, a manifest gives the listed ids in order,
   * provided each id is one non-empty whitespace-free word.
   */
  lemma {:induction false} ManifestReadsBack(members: seq<string>)
    requires forall k :: 0 <= k < |members| ==> IsWord(ManifestId(members[k]))
    ensures var ids := SplitWs(Strip(ManifestText(members)));
      |ids| == |members| && forall k :: 0 <= k < |members| ==> ids[k] == ManifestId(members[k])
  {
    SplitWsStrip(ManifestText(members));
    ManifestSplits(members);
  }

  lemma {:induction false} ManifestSplits(members: seq<string>)
    requires forall k :: 0 <= k < |members| ==> IsWord(ManifestId(members[k]))
    ensures var ids := SplitWs(ManifestText(members));
      |ids| == |members| && forall k :: 0 <= k < |members| ==> ids[k] == ManifestId(members[k])
  {
    if members != [] {
      var w := ManifestId(members[0]);
      var rest := ManifestText(members[1..]);
      assert ManifestText(members) == w + ['\n'] + rest;
      SplitWsWord(w, '\n', rest);
      WordsTail(members);
      ManifestSplits(members[1..]);
    }
  }

  lemma WordsTail(members: seq<string>)
    requires members != []
    requires forall k :: 0 <= k < |members| ==> IsWord(ManifestId(members[k]))
    ensures forall k :: 0 <= k < |members[1..]| ==> IsWord(ManifestId(members[1..][k]))
  {
    forall k | 0 <= k < |members[1..]| ensures IsWord(ManifestId(members[1..][k])) {
      assert members[1..][k] == members[k + 1];
    }
  }
}
