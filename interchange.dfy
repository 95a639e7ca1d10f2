/**
 * How the importer's output meets the flattener's input: the names the
 * importer writes, the corners it writes, the files it renames and the
 * manifests it lists, as the flattener then reads them. The flattener runs
 * in the directory that holds `VOCdevkit/VOC<year>`, and the importer is
 * given `VOCdevkit/VOC<year>` as its Pascal VOC directory.
 */
module Interchange {
  import opened Wrappers
  import opened Text
  import opened Numeric
  import opened BoundingBox
  import opened VocXml
  import Conversion
  import DatasetSplit
  import Flattener

  /** Every name the importer's rewrite table produces is one of the flattener's classes. */
  lemma ReplaceTargetsAreClasses()
    ensures forall name :: name in Conversion.Replace ==> Conversion.Replace[name] in Flattener.Classes
  {
  }

  /**
   * A label survives into the flattened output exactly when it is one of the
   * classes or one of the names the rewrite table maps onto a class.
   */
  lemma CanonicalKept(name: string)
    ensures Conversion.Canonical(name) in Flattener.Classes
      <==> name in Flattener.Classes || name in Conversion.Replace
  {
    ReplaceTargetsAreClasses();
  }

  /** The integer the flattener makes of a corner: truncation toward zero either way. */
  function CornerInt(c: Coord): int
  {
    match c
    case Exact(r) => Trunc(r)
    case Whole(i) => i
  }

  /** A corner the flattener can read: an int, or a real whose text reads back as itself. */
  predicate Readable(c: Coord, show: real -> string)
  {
    c.Exact? ==> ParseFloat(show(c.r)) == Some(c.r)
  }

  predicate BoxReadable(b: Box, show: real -> string)
  {
    Readable(b.xmin, show) && Readable(b.ymin, show) && Readable(b.xmax, show) && Readable(b.ymax, show)
  }

  lemma CornerReadsBack(c: Coord, show: real -> string)
    requires Readable(c, show)
    ensures IntOfText(Conversion.CoordText(c, show)) == Some(CornerInt(c))
  {
    if c.Whole? {
      IntOfIntText(c.i);
    }
  }

  /**
   * An object the importer writes is kept by the flattener exactly when its
   * name is a class, and then with the importer's corners, truncated, and the
   * class's position; the importer's xmin, xmax, ymin, ymax order does not
   * matter, because the flattener looks each corner up by name.
   */
  lemma ImportedObject(classes: seq<string>, d: Conversion.Detection, show: real -> string)
    requires BoxReadable(d.box, show)
    ensures Flattener.Classify(classes, Conversion.Render(d, show)) == Expected(classes, d)
  {
    CornerReadsBack(d.box.xmin, show);
    CornerReadsBack(d.box.ymin, show);
    CornerReadsBack(d.box.xmax, show);
    CornerReadsBack(d.box.ymax, show);
  }

  /** What the flattener should make of one detection of the importer. */
  function Expected(classes: seq<string>, d: Conversion.Detection): Flattener.Classified
  {
    match Flattener.ClassId(classes, d.name)
    case None => Flattener.Dropped
    case Some(id) =>
      Flattener.Kept(Flattener.ClassBox(CornerInt(d.box.xmin), CornerInt(d.box.ymin),
                                        CornerInt(d.box.xmax), CornerInt(d.box.ymax), id))
  }

  /** The boxes expected of an image's detections: the class ones, in order. */
  function ExpectedBoxes(classes: seq<string>, found: seq<Conversion.Detection>): seq<Flattener.ClassBox>
  {
    if found == [] then []
    else
      var e := Expected(classes, found[|found| - 1]);
      ExpectedBoxes(classes, found[..|found| - 1]) + (if e.Kept? then [e.box] else [])
  }

  /** The flattener reads the objects of an image the importer wrote as the expected boxes. */
  lemma {:induction false} ImportedBoxes(classes: seq<string>, found: seq<Conversion.Detection>, show: real -> string)
    requires forall k :: 0 <= k < |found| ==> BoxReadable(found[k].box, show)
    ensures Flattener.Boxes(classes, Conversion.RenderAll(found, show)) == Some(ExpectedBoxes(classes, found))
    decreases |found|
  {
    if found != [] {
      var init := found[..|found| - 1];
      var d := found[|found| - 1];
      var objects := Conversion.RenderAll(found, show);
      assert objects[..|objects| - 1] == Conversion.RenderAll(init, show);
      assert objects[|objects| - 1] == Conversion.Render(d, show);
      ImportedBoxes(classes, init, show);
      ImportedObject(classes, d, show);
      assert Flattener.Boxes(classes, objects)
        == Flattener.Keep(Flattener.Boxes(classes, Conversion.RenderAll(init, show)), Expected(classes, d));
      assert ExpectedBoxes(classes, init) + [] == ExpectedBoxes(classes, init);
    } else {
      assert Conversion.RenderAll(found, show) == [];
    }
  }

  /**
   * The annotation the importer writes for the image `<id>.jpg`, once the
   * manifest step has renamed it, is the file the flattener opens for `<id>`.
   */
  lemma RenamedAnnotationIsOpened(year: string, id: string)
    requires year == [] || year[|year| - 1] != '/'
    requires id == [] || id[0] != '/'
    requires !Contains(PathJoin(PathJoin("VOCdevkit/VOC" + year, "Annotations"), id), ".jpg")
    ensures DatasetSplit.RenameTarget(PathJoin("VOCdevkit/VOC" + year, "Annotations"), id + ".jpg")
      == Flattener.AnnotationFile(year, id)
  {
    var voc := "VOCdevkit/VOC" + year;
    VocRoot(year);
    DatasetSplit.RenameDropsImageExtension(PathJoin(voc, "Annotations"), id);
    SubdirLiterals();
    Under(voc, "Annotations", id + ".xml");
    Regroup(voc, "/", "Annotations", "/", id + ".xml");
    assert voc + "/Annotations/" + (id + ".xml") == Flattener.AnnotationFile(year, id);
  }

  /** `VOCdevkit/VOC<year>` is a directory name without a trailing slash. */
  lemma VocRoot(year: string)
    requires year == [] || year[|year| - 1] != '/'
    ensures var voc := "VOCdevkit/VOC" + year; voc != [] && voc[|voc| - 1] != '/'
  {
    var voc := "VOCdevkit/VOC" + year;
    assert voc[|voc| - 1] == if year == [] then 'C' else year[|year| - 1];
  }

  lemma SubdirLiterals()
    ensures "/" + "Annotations" + "/" == "/Annotations/"
    ensures "/" + "ImageSets/Main" + "/" == "/ImageSets/Main/"
    ensures "Annotations"[|"Annotations"| - 1] != '/' && "ImageSets/Main"[|"ImageSets/Main"| - 1] != '/'
  {
  }

  /** A name under a sub-directory of a directory, none of them with a stray slash. */
  lemma Under(root: string, sub: string, name: string)
    requires root != [] && root[|root| - 1] != '/'
    requires sub != [] && sub[0] != '/' && sub[|sub| - 1] != '/'
    requires name != [] && name[0] != '/'
    ensures PathJoin(PathJoin(root, sub), name) == root + "/" + sub + "/" + name
  {
    var dir := root + "/" + sub;
    assert PathJoin(root, sub) == dir;
    assert dir[|dir| - 1] == sub[|sub| - 1];
  }

  lemma Regroup(a: string, x: string, y: string, z: string, b: string)
    ensures a + x + y + z + b == a + (x + y + z) + b
  {
  }

  /**
   * The manifest the importer writes for an image set is the one the
   * flattener reads for it; both sets the flattener reads are such.
   */
  lemma ManifestIsRead(year: string, imageSet: string)
    requires year == [] || year[|year| - 1] != '/'
    requires imageSet == [] || imageSet[0] != '/'
    ensures PathJoin(PathJoin("VOCdevkit/VOC" + year, "ImageSets/Main"), imageSet + ".txt")
      == Flattener.ManifestFile(year, imageSet)
  {
    var voc := "VOCdevkit/VOC" + year;
    var name := imageSet + ".txt";
    VocRoot(year);
    SubdirLiterals();
    assert name[0] != '/';
    Under(voc, "ImageSets/Main", name);
    Regroup(voc, "/", "ImageSets/Main", "/", name);
    assert voc + "/ImageSets/Main/" + name == Flattener.ManifestFile(year, imageSet);
  }

  /**
   * A manifest the importer writes for image files `<id>.jpg` is read by the
   * flattener as those ids, in order.
   */
  lemma ManifestListsImageIds(ids: seq<string>)
    requires forall k :: 0 <= k < |ids| ==> IsWord(ids[k]) && !Contains(ids[k], ".jpg")
    ensures var members := seq(|ids|, k requires 0 <= k < |ids| => ids[k] + ".jpg");
      Flattener.ManifestIds(DatasetSplit.ManifestText(members)) == ids
  {
    var members := seq(|ids|, k requires 0 <= k < |ids| => ids[k] + ".jpg");
    forall k | 0 <= k < |ids| ensures DatasetSplit.ManifestId(members[k]) == ids[k] {
      DatasetSplit.ImageMemberId(ids[k]);
    }
    DatasetSplit.ManifestReadsBack(members);
  }
}
