/**
 * The annotation flattener: for each (year, image set) pair it reads the
 * image-set manifest, and for each image id listed there writes one line to
 * `<year>_<set>.txt`: the absolute path of the image, then one
 * ` xmin,ymin,xmax,ymax,class_id` group per object whose name is one of the
 * known classes.
 *
 * The files the flattener reads are inputs: manifests as a map from path to
 * text, annotation files as a map from path to the objects they hold, in
 * document order. A missing file, or a coordinate `int(float(...))` refuses,
 * raises and ends the whole run; that is None here.
 */
module Flattener {
  import opened Wrappers
  import opened Text
  import opened Numeric
  import opened VocXml

  /** The known classes; a box's class id is its class's position here. */
  const Classes: seq<string> := [
    "Джим Бим", "Джим Бим Apple", "Джим Бим Черри", "Курвуазье VS",
    "Курвуазье VSOP", "Сауза Голд", "Сауза Сильвер"]

  /** The (year, image set) pairs flattened, in order. */
  const Sets: seq<(string, string)> := [("2007", "trainval"), ("2007", "test")]

  /** No class is listed twice, so a class id names exactly one class. */
  lemma ClassesDistinct()
    ensures forall i, j :: 0 <= i < j < |Classes| ==> Classes[i] != Classes[j]
  {
    assert Classes[1][9] != Classes[2][9];
    assert Classes[3][0] != Classes[5][0] && Classes[4][0] != Classes[6][0];
  }

  /** `list.index(x)`: the first position holding `x`, None where Python raises. */
  function IndexOf(s: seq<string>, x: string): (r: Option<nat>)
    ensures r.Some? <==> x in s
    ensures r.Some? ==> r.value < |s| && s[r.value] == x
    ensures r.Some? ==> forall k :: 0 <= k < r.value ==> s[k] != x
  {
    if s == [] then None
    else if s[0] == x then Some(0)
    else
      var r := IndexOf(s[1..], x);
      if r.None? then None else Some(r.value + 1)
  }

  /** `classes.index(name)` for a known class; the script's list is Classes. */
  function ClassId(classes: seq<string>, name: string): (r: Option<nat>)
    ensures r.Some? <==> name in classes
    ensures r.Some? ==> r.value < |classes| && classes[r.value] == name
  {
    IndexOf(classes, name)
  }

  /** A box as the flattener writes it: integer corners and a class id. */
  datatype ClassBox = ClassBox(xmin: int, ymin: int, xmax: int, ymax: int, classId: nat)

  /** What becomes of one object of an annotation file. */
  datatype Classified = Dropped | Kept(box: ClassBox) | Unreadable

  /**
   * An object whose name is not a known class is dropped before its box is
   * looked at; a kept object's corners are `int(float(text))` of its bndbox
   * fields and its class id is the position of its name in the class list.
   */
  function Classify(classes: seq<string>, o: VocObject): (c: Classified)
    ensures c.Dropped? <==> o.name !in classes
    ensures c.Kept? ==> c.box.classId < |classes| && classes[c.box.classId] == o.name
  {
    match ClassId(classes, o.name)
    case None => Dropped
    case Some(id) =>
      if IntOfText(o.xmin).None? || IntOfText(o.ymin).None?
         || IntOfText(o.xmax).None? || IntOfText(o.ymax).None? then Unreadable
      else Kept(ClassBox(IntOfText(o.xmin).value, IntOfText(o.ymin).value,
                         IntOfText(o.xmax).value, IntOfText(o.ymax).value, id))
  }

  /**
   * A kept object's corners are its bndbox texts read with `int(float())`; an
   * object of a known class is unreadable exactly when one of them is refused.
   */
  lemma ClassifyCorners(classes: seq<string>, o: VocObject)
    ensures var c := Classify(classes, o);
      c.Kept? ==> && IntOfText(o.xmin) == Some(c.box.xmin) && IntOfText(o.ymin) == Some(c.box.ymin)
                  && IntOfText(o.xmax) == Some(c.box.xmax) && IntOfText(o.ymax) == Some(c.box.ymax)
    ensures Classify(classes, o).Unreadable? <==>
      o.name in classes && (IntOfText(o.xmin).None? || IntOfText(o.ymin).None?
                            || IntOfText(o.xmax).None? || IntOfText(o.ymax).None?)
  {
  }

  /** The boxes of the kept objects, in document order; None once an object is unreadable. */
  function Boxes(classes: seq<string>, objects: seq<VocObject>): (r: Option<seq<ClassBox>>)
    ensures r.Some? ==> |r.value| <= |objects|
  {
    if objects == [] then Some([])
    else
      Keep(Boxes(classes, objects[..|objects| - 1]), Classify(classes, objects[|objects| - 1]))
  }

  function Keep(before: Option<seq<ClassBox>>, c: Classified): Option<seq<ClassBox>>
  {
    if before.None? || c.Unreadable? then None
    else if c.Dropped? then before
    else Some(before.value + [c.box])
  }

  /** The five numbers of a group, as text: the four corners, then the class id. */
  function BoxFields(b: ClassBox): seq<string>
  {
    [IntText(b.xmin), IntText(b.ymin), IntText(b.xmax), IntText(b.ymax), IntText(b.classId)]
  }

  /**
   * `",".join(str(a) for a in b) + ',' + str(cls_id)`: the four corners joined
   * by commas, then a comma and the class id, which is the five fields joined.
   */
  function BoxText(b: ClassBox): string
  {
    Join(BoxFields(b), ',')
  }

  /** Each box as " " followed by its group. */
  function GroupsText(boxes: seq<ClassBox>): (t: string)
    ensures boxes == [] <==> t == []
  {
    if boxes == [] then [] else " " + BoxText(boxes[0]) + GroupsText(boxes[1..])
  }

  function ImagePath(wd: string, year: string, id: string): string
  {
    wd + "/VOCdevkit/VOC" + year + "/JPEGImages/" + id + ".jpg"
  }

  function AnnotationFile(year: string, id: string): string
  {
    "VOCdevkit/VOC" + year + "/Annotations/" + id + ".xml"
  }

  function ManifestFile(year: string, imageSet: string): string
  {
    "VOCdevkit/VOC" + year + "/ImageSets/Main/" + imageSet + ".txt"
  }

  function OutputFile(year: string, imageSet: string): string
  {
    year + "_" + imageSet + ".txt"
  }

  /** What convert_annotation appends for one image. */
  function Groups(classes: seq<string>, year: string, id: string, annotations: map<string, seq<VocObject>>): Option<string>
  {
    var file := AnnotationFile(year, id);
    if file !in annotations then None
    else
      var boxes :- Boxes(classes, annotations[file]);
      Some(GroupsText(boxes))
  }

  /** The line of one image: path, groups, newline. */
  function ImageLine(classes: seq<string>, wd: string, year: string, id: string, annotations: map<string, seq<VocObject>>): (r: Option<string>)
    ensures r.Some? <==> Groups(classes, year, id, annotations).Some?
    ensures r.Some? ==> var path := ImagePath(wd, year, id);
      && |path| < |r.value| && r.value[..|path|] == path && r.value[|r.value| - 1] == '\n'
  {
    var groups :- Groups(classes, year, id, annotations);
    Some(ImagePath(wd, year, id) + groups + "\n")
  }

  /** The lines of the listed images, in manifest order. */
  function SetText(classes: seq<string>, wd: string, year: string, ids: seq<string>, annotations: map<string, seq<VocObject>>): (r: Option<string>)
  {
    if ids == [] then Some([])
    else Cat(ImageLine(classes, wd, year, ids[0], annotations), SetText(classes, wd, year, ids[1..], annotations))
  }

  /** Two pieces of output one after the other; nothing once either fails. */
  function Cat(a: Option<string>, b: Option<string>): Option<string>
  {
    if a.Some? && b.Some? then Some(a.value + b.value) else None
  }

  /** The image ids of a manifest: `read().strip().split()`. */
  function ManifestIds(text: string): seq<string>
  {
    SplitWs(Strip(text))
  }

  /** The text of `<year>_<set>.txt`. */
  function FlattenSet(classes: seq<string>, wd: string, year: string, imageSet: string, manifests: map<string, string>,
                      annotations: map<string, seq<VocObject>>): Option<string>
  {
    var file := ManifestFile(year, imageSet);
    if file !in manifests then None
    else SetText(classes, wd, year, ManifestIds(manifests[file]), annotations)
  }

  /** Every output file of a run over `sets`, as (name, text), in order. */
  function FlattenSets(classes: seq<string>, wd: string, sets: seq<(string, string)>, manifests: map<string, string>,
                       annotations: map<string, seq<VocObject>>): Option<seq<(string, string)>>
  {
    if sets == [] then Some([])
    else
      var before :- FlattenSets(classes, wd, sets[..|sets| - 1], manifests, annotations);
      var (year, imageSet) := sets[|sets| - 1];
      var text :- FlattenSet(classes, wd, year, imageSet, manifests, annotations);
      Some(before + [(OutputFile(year, imageSet), text)])
  }

  // ---------------------------------------------------------------------------
  // The loops of the script
  // ---------------------------------------------------------------------------

  /** convert_annotation: the loop over the objects of one annotation file. */
  method ConvertAnnotation(classes: seq<string>, year: string, id: string, annotations: map<string, seq<VocObject>>)
    returns (groups: Option<string>)
    ensures groups == Groups(classes, year, id, annotations)
  {
    var file := AnnotationFile(year, id);
    if file !in annotations {
      return None;
    }
    var objects := annotations[file];
    var text := "";
    ghost var boxes: seq<ClassBox> := [];
    var i := 0;
    while i < |objects|
      invariant 0 <= i <= |objects|
      invariant Boxes(classes, objects[..i]) == Some(boxes) && text == GroupsText(boxes)
    {
      assert objects[..i + 1][..i] == objects[..i];
      match Classify(classes, objects[i]) {
        case Dropped =>
        case Kept(b) =>
          GroupsTextSnoc(boxes, b);
          text := text + " " + BoxText(b);
          boxes := boxes + [b];
        case Unreadable =>
          BoxesStop(classes, objects, i + 1);
          return None;
      }
      i := i + 1;
    }
    assert objects[..i] == objects;
    groups := Some(text);
  }

  /** The loop over the image ids of one manifest. */
  method WriteSet(classes: seq<string>, wd: string, year: string, imageSet: string, manifests: map<string, string>,
                  annotations: map<string, seq<VocObject>>)
    returns (text: Option<string>)
    ensures text == FlattenSet(classes, wd, year, imageSet, manifests, annotations)
  {
    var file := ManifestFile(year, imageSet);
    if file !in manifests {
      return None;
    }
    var ids := ManifestIds(manifests[file]);
    var out := "";
    var i := 0;
    while i < |ids|
      invariant 0 <= i <= |ids|
      invariant SetText(classes, wd, year, ids[..i], annotations) == Some(out)
    {
      var groups := ConvertAnnotation(classes, year, ids[i], annotations);
      LineStep(classes, wd, year, ids, i, out, annotations);
      if groups.None? {
        return None;
      }
      out := out + ImagePath(wd, year, ids[i]) + groups.value + "\n";
      i := i + 1;
    }
    assert ids[..i] == ids;
    text := Some(out);
  }

  /** The loop over the (year, image set) pairs. */
  method Run(classes: seq<string>, wd: string, sets: seq<(string, string)>, manifests: map<string, string>,
             annotations: map<string, seq<VocObject>>)
    returns (outputs: Option<seq<(string, string)>>)
    ensures outputs == FlattenSets(classes, wd, sets, manifests, annotations)
  {
    var done: seq<(string, string)> := [];
    var i := 0;
    while i < |sets|
      invariant 0 <= i <= |sets|
      invariant FlattenSets(classes, wd, sets[..i], manifests, annotations) == Some(done)
    {
      var (year, imageSet) := sets[i];
      assert sets[..i + 1][..i] == sets[..i];
      var text := WriteSet(classes, wd, year, imageSet, manifests, annotations);
      if text.None? {
        FlattenSetsStop(classes, wd, sets, manifests, annotations, i + 1);
        return None;
      }
      done := done + [(OutputFile(year, imageSet), text.value)];
      i := i + 1;
    }
    assert sets[..i] == sets;
    outputs := Some(done);
  }

  // ---------------------------------------------------------------------------
  // Properties
  // ---------------------------------------------------------------------------

  lemma {:induction false} BoxesStop(classes: seq<string>, objects: seq<VocObject>, k: nat)
    requires k <= |objects| && Boxes(classes, objects[..k]).None?
    ensures Boxes(classes, objects).None?
    decreases |objects|
  {
    if k < |objects| {
      var init := objects[..|objects| - 1];
      assert init[..k] == objects[..k];
      BoxesStop(classes, init, k);
    } else {
      assert objects[..k] == objects;
    }
  }

  lemma {:induction false} FlattenSetsStop(classes: seq<string>, wd: string, sets: seq<(string, string)>, manifests: map<string, string>,
                                           annotations: map<string, seq<VocObject>>, k: nat)
    requires 0 < k <= |sets|
    requires FlattenSet(classes, wd, sets[k - 1].0, sets[k - 1].1, manifests, annotations).None?
    ensures FlattenSets(classes, wd, sets, manifests, annotations).None?
    decreases |sets|
  {
    if k < |sets| {
      var init := sets[..|sets| - 1];
      assert init[k - 1] == sets[k - 1];
      FlattenSetsStop(classes, wd, init, manifests, annotations, k);
    }
  }

  predicate HasUnreadable(classes: seq<string>, objects: seq<VocObject>)
  {
    exists k :: 0 <= k < |objects| && Classify(classes, objects[k]).Unreadable?
  }

  /** An annotation file yields no boxes exactly when one of its known-class objects has an unreadable corner. */
  lemma BoxesFail(classes: seq<string>, objects: seq<VocObject>)
    ensures Boxes(classes, objects).None? <==> HasUnreadable(classes, objects)
  {
    if HasUnreadable(classes, objects) {
      var k :| 0 <= k < |objects| && Classify(classes, objects[k]).Unreadable?;
      UnreadableStops(classes, objects, k);
    }
    if Boxes(classes, objects).None? {
      UnreadableBehindNone(classes, objects);
    }
  }

  lemma UnreadableStops(classes: seq<string>, objects: seq<VocObject>, k: nat)
    requires k < |objects| && Classify(classes, objects[k]).Unreadable?
    ensures Boxes(classes, objects).None?
  {
    var run := objects[..k + 1];
    assert |run| - 1 == k;
    assert run[..|run| - 1] == objects[..k] && run[|run| - 1] == objects[k];
    assert Boxes(classes, run) == Keep(Boxes(classes, objects[..k]), Classify(classes, objects[k]));
    BoxesStop(classes, objects, k + 1);
  }

  lemma {:induction false} UnreadableBehindNone(classes: seq<string>, objects: seq<VocObject>)
    requires Boxes(classes, objects).None?
    ensures HasUnreadable(classes, objects)
    decreases |objects|
  {
    var init := objects[..|objects| - 1];
    if Boxes(classes, init).None? {
      UnreadableBehindNone(classes, init);
      var k :| 0 <= k < |init| && Classify(classes, init[k]).Unreadable?;
      assert objects[k] == init[k];
    } else {
      assert Classify(classes, objects[|objects| - 1]).Unreadable?;
    }
  }

  /**
   * Boxes keep document order: the boxes of two consecutive runs of objects
   * are the boxes of the first followed by those of the second.
   */
  lemma {:induction false} BoxesAppend(classes: seq<string>, a: seq<VocObject>, b: seq<VocObject>)
    requires Boxes(classes, a).Some? && Boxes(classes, b).Some?
    ensures Boxes(classes, a + b) == Some(Boxes(classes, a).value + Boxes(classes, b).value)
    decreases |b|
  {
    if b == [] {
      assert a + b == a;
      assert Boxes(classes, a).value + [] == Boxes(classes, a).value;
    } else {
      var init := b[..|b| - 1];
      var c := Classify(classes, b[|b| - 1]);
      assert (a + b)[..|a + b| - 1] == a + init && (a + b)[|a + b| - 1] == b[|b| - 1];
      BoxesAppend(classes, a, init);
      KeepPrefix(Boxes(classes, a).value, Boxes(classes, init).value, c);
    }
  }

  /** Keeping an object after a longer run of boxes keeps that run in front. */
  lemma KeepPrefix(x: seq<ClassBox>, y: seq<ClassBox>, c: Classified)
    requires Keep(Some(y), c).Some?
    ensures Keep(Some(x + y), c) == Some(x + Keep(Some(y), c).value)
  {
    if c.Kept? {
      assert x + y + [c.box] == x + (y + [c.box]);
    }
  }

  /**
   * Every box names a known class and has one kept object behind it, so an
   * image never has more groups than objects.
   */
  lemma {:induction false} BoxesBounded(classes: seq<string>, objects: seq<VocObject>)
    requires Boxes(classes, objects).Some?
    ensures |Boxes(classes, objects).value| <= |objects|
    ensures forall k :: 0 <= k < |Boxes(classes, objects).value| ==> Boxes(classes, objects).value[k].classId < |classes|
    decreases |objects|
  {
    if objects != [] {
      BoxesBounded(classes, objects[..|objects| - 1]);
    }
  }

  /** An image none of whose objects is a known class still gets a line: its path alone. */
  lemma {:induction false} NoKnownClass(classes: seq<string>, objects: seq<VocObject>)
    requires forall k :: 0 <= k < |objects| ==> objects[k].name !in classes
    ensures Boxes(classes, objects) == Some([])
    decreases |objects|
  {
    if objects != [] {
      NoKnownClass(classes, objects[..|objects| - 1]);
    }
  }

  lemma NoKnownClassLine(classes: seq<string>, wd: string, year: string, id: string, annotations: map<string, seq<VocObject>>)
    requires AnnotationFile(year, id) in annotations
    requires forall o :: o in annotations[AnnotationFile(year, id)] ==> o.name !in classes
    ensures ImageLine(classes, wd, year, id, annotations) == Some(ImagePath(wd, year, id) + "\n")
  {
    var objects := annotations[AnnotationFile(year, id)];
    assert forall k :: 0 <= k < |objects| ==> objects[k] in objects;
    NoKnownClass(classes, objects);
    assert Groups(classes, year, id, annotations) == Some([]);
    assert ImagePath(wd, year, id) + [] == ImagePath(wd, year, id);
  }

  lemma {:induction false} GroupsTextSnoc(boxes: seq<ClassBox>, b: ClassBox)
    ensures GroupsText(boxes + [b]) == GroupsText(boxes) + " " + BoxText(b)
  {
    if boxes == [] {
      assert GroupsText([b]) == " " + BoxText(b) + GroupsText([]);
    } else {
      assert (boxes + [b])[1..] == boxes[1..] + [b];
      GroupsTextSnoc(boxes[1..], b);
    }
  }

  /** One turn of the loop over image ids: its line is appended, or the run fails. */
  lemma LineStep(classes: seq<string>, wd: string, year: string, ids: seq<string>, i: nat, out: string,
                 annotations: map<string, seq<VocObject>>)
    requires i < |ids| && SetText(classes, wd, year, ids[..i], annotations) == Some(out)
    ensures Groups(classes, year, ids[i], annotations).None? ==> SetText(classes, wd, year, ids, annotations).None?
    ensures Groups(classes, year, ids[i], annotations).Some? ==>
      SetText(classes, wd, year, ids[..i + 1], annotations)
        == Some(out + ImagePath(wd, year, ids[i]) + Groups(classes, year, ids[i], annotations).value + "\n")
  {
    assert ids[..i] + [ids[i]] == ids[..i + 1];
    SetTextSnoc(classes, wd, year, ids[..i], ids[i], annotations);
    if Groups(classes, year, ids[i], annotations).None? {
      SetTextStops(classes, wd, year, ids, i + 1, annotations);
    } else {
      LineJoin(out, ImagePath(wd, year, ids[i]), Groups(classes, year, ids[i], annotations).value);
    }
  }

  lemma LineJoin(out: string, path: string, groups: string)
    ensures out + (path + groups + "\n") == out + path + groups + "\n"
  {
  }

  /** A prefix of the ids that fails makes the whole manifest fail. */
  lemma SetTextStops(classes: seq<string>, wd: string, year: string, ids: seq<string>, k: nat,
                     annotations: map<string, seq<VocObject>>)
    requires k <= |ids| && SetText(classes, wd, year, ids[..k], annotations).None?
    ensures SetText(classes, wd, year, ids, annotations).None?
  {
    SetTextAppend(classes, wd, year, ids[..k], ids[k..], annotations);
    assert ids[..k] + ids[k..] == ids;
  }

  lemma SetTextSnoc(classes: seq<string>, wd: string, year: string, ids: seq<string>, id: string,
                    annotations: map<string, seq<VocObject>>)
    ensures SetText(classes, wd, year, ids + [id], annotations) ==
      Cat(SetText(classes, wd, year, ids, annotations), ImageLine(classes, wd, year, id, annotations))
  {
    SetTextAppend(classes, wd, year, ids, [id], annotations);
    var line := ImageLine(classes, wd, year, id, annotations);
    assert SetText(classes, wd, year, [id], annotations) == Cat(line, SetText(classes, wd, year, [], annotations));
    if line.Some? {
      assert line.value + [] == line.value;
    }
  }

  lemma {:induction false} SetTextAppend(classes: seq<string>, wd: string, year: string, a: seq<string>, b: seq<string>,
                                         annotations: map<string, seq<VocObject>>)
    ensures SetText(classes, wd, year, a + b, annotations)
      == Cat(SetText(classes, wd, year, a, annotations), SetText(classes, wd, year, b, annotations))
  {
    if a == [] {
      assert a + b == b;
      var y := SetText(classes, wd, year, b, annotations);
      if y.Some? {
        assert [] + y.value == y.value;
      }
    } else {
      assert (a + b)[1..] == a[1..] + b;
      assert (a + b)[0] == a[0];
      SetTextAppend(classes, wd, year, a[1..], b, annotations);
      CatAssociative(ImageLine(classes, wd, year, a[0], annotations), SetText(classes, wd, year, a[1..], annotations),
                     SetText(classes, wd, year, b, annotations));
    }
  }

  lemma CatAssociative(x: Option<string>, y: Option<string>, z: Option<string>)
    ensures Cat(x, Cat(y, z)) == Cat(Cat(x, y), z)
  {
    if x.Some? && y.Some? && z.Some? {
      assert x.value + (y.value + z.value) == x.value + y.value + z.value;
    }
  }


  // ---------------------------------------------------------------------------
  // Reading a line back, as the consumer of these files does
  // ---------------------------------------------------------------------------

  /** One group `x,y,x,y,c` read back with `split(',')` and `int()`. */
  function ReadBox(w: string): Option<ClassBox>
  {
    var parts := SplitOn(w, ',');
    if |parts| != 5 then None
    else
      var xmin :- ParseInt(parts[0]);
      var ymin :- ParseInt(parts[1]);
      var xmax :- ParseInt(parts[2]);
      var ymax :- ParseInt(parts[3]);
      var id :- ParseInt(parts[4]);
      if id < 0 then None else Some(ClassBox(xmin, ymin, xmax, ymax, id))
  }

  function ReadBoxes(words: seq<string>): Option<seq<ClassBox>>
  {
    if words == [] then Some([])
    else
      var b :- ReadBox(words[0]);
      var rest :- ReadBoxes(words[1..]);
      Some([b] + rest)
  }

  /** A line split on whitespace: the image path, then the groups. */
  function ReadLine(line: string): Option<(string, seq<ClassBox>)>
  {
    var words := SplitWs(line);
    if words == [] then None
    else
      var boxes :- ReadBoxes(words[1..]);
      Some((words[0], boxes))
  }

  predicate InGroup(ch: char)
  {
    IsDigit(ch) || ch == '-' || ch == ','
  }

  lemma FieldsInGroup(b: ClassBox)
    ensures forall k, j :: 0 <= k < 5 && 0 <= j < |BoxFields(b)[k]| ==> InGroup(BoxFields(b)[k][j])
    ensures forall k :: 0 <= k < 5 ==> ',' !in BoxFields(b)[k]
  {
    var f := BoxFields(b);
    assert f[0] == IntText(b.xmin) && f[1] == IntText(b.ymin) && f[2] == IntText(b.xmax);
    assert f[3] == IntText(b.ymax) && f[4] == IntText(b.classId);
  }

  /** A group reads back as the box it was written from. */
  lemma BoxRoundTrip(b: ClassBox)
    ensures ReadBox(BoxText(b)) == Some(b)
  {
    FieldsInGroup(b);
    SplitOnJoin(BoxFields(b), ',');
    ParseIntText(b.xmin);
    ParseIntText(b.ymin);
    ParseIntText(b.xmax);
    ParseIntText(b.ymax);
    ParseIntText(b.classId);
  }

  lemma BoxTextIsWord(b: ClassBox)
    ensures IsWord(BoxText(b))
    ensures '\n' !in BoxText(b)
  {
    FieldsInGroup(b);
    JoinChars(BoxFields(b), ',', InGroup);
    assert BoxText(b) != [] by {
      assert BoxText(b) == BoxFields(b)[0] + [','] + Join(BoxFields(b)[1..], ',');
    }
  }

  /** The groups and the newline after them start with whitespace and split into the groups. */
  lemma {:induction false} GroupsSplit(boxes: seq<ClassBox>)
    ensures var s := GroupsText(boxes) + "\n";
      && IsSpace(s[0])
      && ReadBoxes(SplitWs(s[1..])) == Some(boxes)
  {
    if boxes == [] {
      assert GroupsText(boxes) + "\n" == "\n";
    } else {
      GroupsSplit(boxes[1..]);
      GroupsSplitStep(boxes[0], boxes[1..]);
      assert [boxes[0]] + boxes[1..] == boxes;
    }
  }

  lemma GroupsSplitStep(b: ClassBox, rest: seq<ClassBox>)
    requires var t := GroupsText(rest) + "\n";
      IsSpace(t[0]) && ReadBoxes(SplitWs(t[1..])) == Some(rest)
    ensures var s := GroupsText([b] + rest) + "\n";
      && IsSpace(s[0])
      && ReadBoxes(SplitWs(s[1..])) == Some([b] + rest)
  {
    var s := GroupsText([b] + rest) + "\n";
    var w := BoxText(b);
    var t := GroupsText(rest) + "\n";
    GroupsTextCons(b, rest);
    BoxTextIsWord(b);
    SplitWsWord(w, t[0], t[1..]);
    var words := SplitWs(s[1..]);
    assert words[0] == w && words[1..] == SplitWs(t[1..]);
    BoxRoundTrip(b);
  }

  /** The text of a box followed by more groups: a space, the box's group, the rest. */
  lemma GroupsTextCons(b: ClassBox, rest: seq<ClassBox>)
    ensures var s := GroupsText([b] + rest) + "\n";
      var t := GroupsText(rest) + "\n";
      && s[0] == ' '
      && s[1..] == BoxText(b) + [t[0]] + t[1..]
  {
    var t := GroupsText(rest) + "\n";
    assert ([b] + rest)[0] == b && ([b] + rest)[1..] == rest;
    assert GroupsText([b] + rest) + "\n" == " " + BoxText(b) + t;
    AfterSpace(BoxText(b), t);
  }

  lemma AfterSpace(w: string, t: string)
    requires t != []
    ensures (" " + w + t)[0] == ' '
    ensures (" " + w + t)[1..] == w + [t[0]] + t[1..]
  {
    assert [t[0]] + t[1..] == t;
    assert (" " + w + t)[1..] == w + t;
  }

  /**
   * A written line reads back as the image path and the boxes, in order,
   * provided the path has no whitespace in it.
   */
  lemma LineRoundTrip(path: string, boxes: seq<ClassBox>)
    requires IsWord(path)
    ensures ReadLine(path + GroupsText(boxes) + "\n") == Some((path, boxes))
  {
    var s := GroupsText(boxes) + "\n";
    GroupsSplit(boxes);
    assert path + GroupsText(boxes) + "\n" == path + s;
    HeadApart(path, s);
    SplitWsWord(path, s[0], s[1..]);
  }

  lemma HeadApart(p: string, t: string)
    requires t != []
    ensures p + t == p + [t[0]] + t[1..]
  {
    assert [t[0]] + t[1..] == t;
  }

  /** The line of an image, read back: its path and the boxes of its known-class objects. */
  lemma ImageLineReadsBack(classes: seq<string>, wd: string, year: string, id: string, annotations: map<string, seq<VocObject>>)
    requires IsWord(ImagePath(wd, year, id))
    requires ImageLine(classes, wd, year, id, annotations).Some?
    ensures ReadLine(ImageLine(classes, wd, year, id, annotations).value)
      == Some((ImagePath(wd, year, id), Boxes(classes, annotations[AnnotationFile(year, id)]).value))
  {
    LineRoundTrip(ImagePath(wd, year, id), Boxes(classes, annotations[AnnotationFile(year, id)]).value);
  }

  /**
   * One line per listed image, in manifest order: split on newlines, the text
   * of a set gives each image's path and groups, then the empty piece after
   * the final newline.
   */
  lemma {:induction false} SetTextLines(classes: seq<string>, wd: string, year: string, ids: seq<string>,
                                        annotations: map<string, seq<VocObject>>)
    requires '\n' !in wd && '\n' !in year
    requires forall k :: 0 <= k < |ids| ==> '\n' !in ids[k]
    requires SetText(classes, wd, year, ids, annotations).Some?
    ensures var lines := SplitOn(SetText(classes, wd, year, ids, annotations).value, '\n');
      && |lines| == |ids| + 1 && lines[|ids|] == []
      && forall k :: 0 <= k < |ids| ==>
           && Groups(classes, year, ids[k], annotations).Some?
           && lines[k] == ImagePath(wd, year, ids[k]) + Groups(classes, year, ids[k], annotations).value
  {
    if ids == [] {
      assert SetText(classes, wd, year, ids, annotations) == Some([]);
    } else {
      var path := ImagePath(wd, year, ids[0]);
      var groups := Groups(classes, year, ids[0], annotations).value;
      SetTextCons(classes, wd, year, ids, annotations);
      var rest := SetText(classes, wd, year, ids[1..], annotations).value;
      SetTextLines(classes, wd, year, ids[1..], annotations);
      LineBodyNoNewline(wd, year, ids[0], Boxes(classes, annotations[AnnotationFile(year, ids[0])]).value);
      SplitOnPiece(path + groups, '\n', rest);
      var lines := SplitOn(SetText(classes, wd, year, ids, annotations).value, '\n');
      assert lines == [path + groups] + SplitOn(rest, '\n');
      forall k | 0 <= k < |ids|
        ensures Groups(classes, year, ids[k], annotations).Some?
        ensures lines[k] == ImagePath(wd, year, ids[k]) + Groups(classes, year, ids[k], annotations).value
      {
        if k > 0 {
          assert lines[k] == SplitOn(rest, '\n')[k - 1];
          assert ids[1..][k - 1] == ids[k];
        } else {
          assert lines[k] == path + groups;
        }
      }
    }
  }

  /** The text of a set that did not fail: the first image's line, then the text of the others. */
  lemma SetTextCons(classes: seq<string>, wd: string, year: string, ids: seq<string>,
                    annotations: map<string, seq<VocObject>>)
    requires ids != [] && SetText(classes, wd, year, ids, annotations).Some?
    ensures Groups(classes, year, ids[0], annotations).Some?
    ensures SetText(classes, wd, year, ids[1..], annotations).Some?
    ensures SetText(classes, wd, year, ids, annotations).value
      == (ImagePath(wd, year, ids[0]) + Groups(classes, year, ids[0], annotations).value) + ['\n']
         + SetText(classes, wd, year, ids[1..], annotations).value
  {
    var path := ImagePath(wd, year, ids[0]);
    var groups := Groups(classes, year, ids[0], annotations).value;
    assert ImageLine(classes, wd, year, ids[0], annotations) == Some(path + groups + "\n");
  }

  lemma LineBodyNoNewline(wd: string, year: string, id: string, boxes: seq<ClassBox>)
    requires '\n' !in wd && '\n' !in year && '\n' !in id
    ensures '\n' !in ImagePath(wd, year, id) + GroupsText(boxes)
  {
    GroupsNoNewline(boxes);
    assert ImagePath(wd, year, id) + GroupsText(boxes)
      == wd + "/VOCdevkit/VOC" + year + "/JPEGImages/" + id + ".jpg" + GroupsText(boxes);
  }

  lemma {:induction false} GroupsNoNewline(boxes: seq<ClassBox>)
    ensures '\n' !in GroupsText(boxes)
  {
    if boxes != [] {
      BoxTextIsWord(boxes[0]);
      GroupsNoNewline(boxes[1..]);
    }
  }

  /** A run produces one output file per (year, image set) pair, named `<year>_<set>.txt`. */
  lemma {:induction false} FlattenSetsNames(classes: seq<string>, wd: string, sets: seq<(string, string)>, manifests: map<string, string>,
                                            annotations: map<string, seq<VocObject>>)
    requires FlattenSets(classes, wd, sets, manifests, annotations).Some?
    ensures var outputs := FlattenSets(classes, wd, sets, manifests, annotations).value;
      && |outputs| == |sets|
      && forall k :: 0 <= k < |sets| ==>
           && outputs[k].0 == OutputFile(sets[k].0, sets[k].1)
           && Some(outputs[k].1) == FlattenSet(classes, wd, sets[k].0, sets[k].1, manifests, annotations)
    decreases |sets|
  {
    if sets != [] {
      var init := sets[..|sets| - 1];
      FlattenSetsNames(classes, wd, init, manifests, annotations);
      forall k | 0 <= k < |init| ensures init[k] == sets[k] { }
    }
  }

  /**
   * The script's own run, over Classes and Sets: `2007_trainval.txt`, then
   * `2007_test.txt`, each holding the text of its set.
   */
  lemma ScriptOutputs(wd: string, manifests: map<string, string>, annotations: map<string, seq<VocObject>>)
    requires FlattenSets(Classes, wd, Sets, manifests, annotations).Some?
    ensures var outputs := FlattenSets(Classes, wd, Sets, manifests, annotations).value;
      && |outputs| == 2
      && outputs[0].0 == "2007_trainval.txt"
      && Some(outputs[0].1) == FlattenSet(Classes, wd, "2007", "trainval", manifests, annotations)
      && outputs[1].0 == "2007_test.txt"
      && Some(outputs[1].1) == FlattenSet(Classes, wd, "2007", "test", manifests, annotations)
  {
    FlattenSetsNames(Classes, wd, Sets, manifests, annotations);
    SetsFacts();
  }

  lemma SetsFacts()
    ensures |Sets| == 2 && Sets[0] == ("2007", "trainval") && Sets[1] == ("2007", "test")
    ensures OutputFile("2007", "trainval") == "2007_trainval.txt"
    ensures OutputFile("2007", "test") == "2007_test.txt"
  {
  }

  /** A set's text fails exactly when the line of one of its images does. */
  lemma {:induction false} SetTextFails(classes: seq<string>, wd: string, year: string, ids: seq<string>,
                                        annotations: map<string, seq<VocObject>>)
    ensures SetText(classes, wd, year, ids, annotations).None?
      <==> exists k :: 0 <= k < |ids| && ImageLine(classes, wd, year, ids[k], annotations).None?
  {
    if ids != [] {
      SetTextFails(classes, wd, year, ids[1..], annotations);
      assert forall k :: 0 < k < |ids| ==> ids[k] == ids[1..][k - 1];
    }
  }
}
