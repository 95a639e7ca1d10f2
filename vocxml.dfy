/**
 * The Pascal VOC annotation text the importer writes (dataturks_to_voc.py):
 * a fixed header, one `<object>` block per labelled box, and the closing tag.
 * Both fixed texts are written as templates, a list of literal runs and holes
 * for the values, so that one reader inverts them all and the round trip is
 * proved once.
 */
module VocXml {
  import opened Wrappers

  /** A template: literal text and holes for values, in the order written. */
  datatype Template = Done | Literal(text: string, next: Template) | Field(next: Template)

  function Holes(t: Template): nat
  {
    match t
    case Done => 0
    case Literal(_, next) => Holes(next)
    case Field(next) => 1 + Holes(next)
  }

  /** The template's text with the holes filled in order. */
  function Fill(t: Template, values: seq<string>): string
    requires |values| == Holes(t)
  {
    match t
    case Done => ""
    case Literal(l, next) => l + Fill(next, values)
    case Field(next) => values[0] + Fill(next, values[1..])
  }

  /** Every hole is followed by a literal that opens with a tag, so a value ends at the first `<`. */
  predicate Closed(t: Template)
  {
    match t
    case Done => true
    case Literal(_, next) => Closed(next)
    case Field(next) => next.Literal? && next.text != [] && next.text[0] == '<' && Closed(next)
  }

  /**
   * Text the writer can put between tags as it is: the importer does no XML
   * escaping, and an XML parser refuses a bare `<` or `&` in character data.
   */
  predicate Plain(s: string)
  {
    '<' !in s && '&' !in s
  }

  predicate Untagged(values: seq<string>)
  {
    forall k :: 0 <= k < |values| ==> Plain(values[k])
  }

  /** The length of the text before the first `<`. */
  function UntilTag(s: string): (n: nat)
    ensures n <= |s| && '<' !in s[..n]
    ensures n < |s| ==> s[n] == '<'
  {
    if s == [] || s[0] == '<' then 0
    else
      var n := 1 + UntilTag(s[1..]);
      assert s[..n] == [s[0]] + s[1..][..n - 1];
      n
  }

  /** Reads the template off the front of `s`: the hole values and the text after it. */
  function Read(t: Template, s: string): (r: Option<(seq<string>, string)>)
    ensures r.Some? ==> |r.value.0| == Holes(t) && |r.value.1| <= |s|
  {
    match t
    case Done => Some(([], s))
    case Literal(l, next) =>
      if |l| <= |s| && s[..|l|] == l then Read(next, s[|l|..]) else None
    case Field(next) =>
      var n := UntilTag(s);
      var r :- Read(next, s[n..]);
      Some(([s[..n]] + r.0, r.1))
  }

  lemma {:induction false} UntilTagOf(v: string, s: string)
    requires '<' !in v && s != [] && s[0] == '<'
    ensures UntilTag(v + s) == |v|
  {
    if v != [] {
      assert (v + s)[1..] == v[1..] + s;
      UntilTagOf(v[1..], s);
    }
  }

  /** Reading a filled closed template gives back the values and the text that followed. */
  lemma {:induction false} ReadFill(t: Template, values: seq<string>, rest: string)
    requires Closed(t) && |values| == Holes(t) && Untagged(values)
    ensures Read(t, Fill(t, values) + rest) == Some((values, rest))
  {
    match t
    case Done =>
      assert Fill(t, values) + rest == rest;
    case Literal(l, next) =>
      var tail := Fill(next, values) + rest;
      assert Fill(t, values) + rest == l + tail;
      assert (l + tail)[..|l|] == l && (l + tail)[|l|..] == tail;
      ReadFill(next, values, rest);
    case Field(next) =>
      var tail := Fill(next, values[1..]) + rest;
      assert Fill(t, values) + rest == values[0] + tail;
      assert tail[0] == '<' by {
        assert Fill(next, values[1..]) == next.text + Fill(next.next, values[1..]);
      }
      assert '<' !in values[0];
      UntilTagOf(values[0], tail);
      assert (values[0] + tail)[..|values[0]|] == values[0] && (values[0] + tail)[|values[0]|..] == tail;
      assert Untagged(values[1..]) by {
        forall k | 0 <= k < |values[1..]| ensures Plain(values[1..][k]) {
          assert values[1..][k] == values[k + 1];
        }
      }
      ReadFill(next, values[1..], rest);
      assert [values[0]] + values[1..] == values;
  }

  /**
   * An object record as the annotation carries it: the label and the four
   * coordinate texts, named by meaning whatever order they are written in.
   */
  datatype VocObject = VocObject(name: string, xmin: string, ymin: string, xmax: string, ymax: string)

  /** A hole, then the literal text that closes it. */
  function Hole(after: string, next: Template): Template
  {
    Field(Literal(after, next))
  }

  /** A hole closed by a tag adds one value and keeps the template closed. */
  lemma HoleFacts(after: string, next: Template)
    requires after != [] && after[0] == '<' && Closed(next)
    ensures Holes(Hole(after, next)) == Holes(next) + 1 && Closed(Hole(after, next))
  {
  }

  // The literal runs of the `<object>` block, each named by the hole it follows.
  const AfterName: string :=
    "</name>\n"
    + "\t<pose>Unspecified</pose>\n"
    + "\t<truncated>Unspecified</truncated>\n"
    + "\t<difficult>Unspecified</difficult>\n"
    + "\t<occluded>Unspecified</occluded>\n"
    + "\t<bndbox>\n"
    + "\t\t<xmin>"
  const AfterXmin: string := "</xmin>\n\t\t<xmax>"
  const AfterXmax: string := "</xmax>\n\t\t<ymin>"
  const AfterYmin: string := "</ymin>\n\t\t<ymax>"
  const AfterYmax: string := "</ymax>\n\t</bndbox>\n</object>\n"

  /** The `<object>` block of dataturks_to_voc.py:70-83: the bndbox fields come as xmin, xmax, ymin, ymax. */
  const ObjectTemplate: Template :=
    Literal("<object>\n\t<name>",
      Field(Literal(AfterName, Field(Literal(AfterXmin, Field(Literal(AfterXmax,
      Field(Literal(AfterYmin, Field(Literal(AfterYmax, Done)))))))))))

  function ObjectXml(o: VocObject): string
  {
    ObjectTemplateFacts();
    Fill(ObjectTemplate, [o.name, o.xmin, o.xmax, o.ymin, o.ymax])
  }

  lemma ObjectTemplateFacts()
    ensures Holes(ObjectTemplate) == 5 && Closed(ObjectTemplate)
  {
    var ymax := Hole(AfterYmax, Done);
    var ymin := Hole(AfterYmin, ymax);
    var xmax := Hole(AfterXmax, ymin);
    var xmin := Hole(AfterXmin, xmax);
    HoleFacts(AfterYmax, Done);
    HoleFacts(AfterYmin, ymax);
    HoleFacts(AfterXmax, ymin);
    HoleFacts(AfterXmin, xmax);
    HoleFacts(AfterName, xmin);
  }

  /** The object block at the front of `s`, and the text after it. */
  function ReadObject(s: string): (r: Option<(VocObject, string)>)
    ensures r.Some? ==> |r.value.1| < |s|
  {
    ObjectTemplateFacts();
    var (values, rest) :- Read(ObjectTemplate, s);
    Some((VocObject(values[0], values[1], values[3], values[2], values[4]), rest))
  }

  predicate UntaggedObject(o: VocObject)
  {
    Plain(o.name) && Plain(o.xmin) && Plain(o.ymin) && Plain(o.xmax) && Plain(o.ymax)
  }

  /** An object block reads back as the object it was written from, the text after it untouched. */
  lemma ObjectRoundTrip(o: VocObject, rest: string)
    requires UntaggedObject(o)
    ensures ReadObject(ObjectXml(o) + rest) == Some((o, rest))
  {
    ObjectTemplateFacts();
    ReadFill(ObjectTemplate, [o.name, o.xmin, o.xmax, o.ymin, o.ymax], rest);
  }

  /** The object blocks one after another, in the order given. */
  function ObjectsXml(objects: seq<VocObject>): string
  {
    if objects == [] then "" else ObjectXml(objects[0]) + ObjectsXml(objects[1..])
  }

  lemma {:induction false} ObjectsXmlAppend(objects: seq<VocObject>, o: VocObject)
    ensures ObjectsXml(objects + [o]) == ObjectsXml(objects) + ObjectXml(o)
  {
    if objects == [] {
      assert [] + [o] == [o];
      assert ObjectsXml([o]) == ObjectXml(o) + ObjectsXml([]);
    } else {
      assert (objects + [o])[1..] == objects[1..] + [o];
      ObjectsXmlAppend(objects[1..], o);
    }
  }

  lemma {:induction false} ObjectsXmlConcat(a: seq<VocObject>, b: seq<VocObject>)
    ensures ObjectsXml(a + b) == ObjectsXml(a) + ObjectsXml(b)
  {
    if a == [] {
      assert a + b == b;
    } else {
      assert (a + b)[0] == a[0] && (a + b)[1..] == a[1..] + b;
      ObjectsXmlConcat(a[1..], b);
    }
  }

  predicate OpensObject(s: string)
  {
    |s| >= 8 && s[..8] == "<object>"
  }

  /** Object blocks read off the front of `s` for as long as one opens. */
  function ReadObjects(s: string): Option<(seq<VocObject>, string)>
    decreases |s|
  {
    if OpensObject(s) then
      var (o, rest) :- ReadObject(s);
      var (others, tail) :- ReadObjects(rest);
      Some(([o] + others, tail))
    else Some(([], s))
  }

  /** An object block, whatever follows it, opens with the `<object>` tag. */
  lemma ObjectOpens(o: VocObject, rest: string)
    ensures OpensObject(ObjectXml(o) + rest)
  {
    ObjectTemplateFacts();
    assert ObjectXml(o)[..8] == "<object>";
  }

  lemma {:induction false} ObjectsRoundTrip(objects: seq<VocObject>, tail: string)
    requires forall k :: 0 <= k < |objects| ==> UntaggedObject(objects[k])
    requires !OpensObject(tail)
    ensures ReadObjects(ObjectsXml(objects) + tail) == Some((objects, tail))
  {
    if objects != [] {
      var rest := ObjectsXml(objects[1..]) + tail;
      assert ObjectsXml(objects) + tail == ObjectXml(objects[0]) + rest;
      ObjectRoundTrip(objects[0], rest);
      ObjectOpens(objects[0], rest);
      ObjectsRoundTrip(objects[1..], tail);
      assert [objects[0]] + objects[1..] == objects;
    } else {
      assert ObjectsXml(objects) + tail == tail;
    }
  }

  // The literal runs of the header, each named by the hole it follows.
  const AfterFolder: string := "</folder>\n<filename>"
  const AfterFileName: string := "</filename>\n<path>"
  const AfterPath: string :=
    "</path>\n"
    + "<source>\n\t<database>Unknown</database>\n</source>\n"
    + "<size>\n"
    + "\t<width>"
  const AfterWidth: string := "</width>\n\t<height>"
  const AfterHeight: string :=
    "</height>\n"
    + "\t<depth>Unspecified</depth>\n"
    + "</size>\n"
    + "<segmented>Unspecified</segmented>\n"

  /** The header of dataturks_to_voc.py:116-125: folder, file name, path, and the image size. */
  const HeaderTemplate: Template :=
    Literal("<annotation>\n<folder>",
      Field(Literal(AfterFolder, Field(Literal(AfterFileName, Field(Literal(AfterPath,
      Field(Literal(AfterWidth, Field(Literal(AfterHeight, Done)))))))))))

  lemma HeaderTemplateFacts()
    ensures Holes(HeaderTemplate) == 5 && Closed(HeaderTemplate)
  {
    var height := Hole(AfterHeight, Done);
    var width := Hole(AfterWidth, height);
    var path := Hole(AfterPath, width);
    var fileName := Hole(AfterFileName, path);
    HoleFacts(AfterHeight, Done);
    HoleFacts(AfterWidth, height);
    HoleFacts(AfterPath, width);
    HoleFacts(AfterFileName, path);
    HoleFacts(AfterFolder, fileName);
  }

  const Closing: string := "</annotation>"

  /** A whole annotation file: the header values and the objects in file order. */
  datatype Annotation = Annotation(folder: string, fileName: string, path: string,
                                   width: string, height: string, objects: seq<VocObject>)

  function HeaderValues(a: Annotation): seq<string>
  {
    [a.folder, a.fileName, a.path, a.width, a.height]
  }

  function DocumentXml(a: Annotation): string
  {
    HeaderTemplateFacts();
    Fill(HeaderTemplate, HeaderValues(a)) + ObjectsXml(a.objects) + Closing
  }

  function ReadDocument(s: string): Option<Annotation>
  {
    HeaderTemplateFacts();
    var (h, rest) :- Read(HeaderTemplate, s);
    var (objects, tail) :- ReadObjects(rest);
    if tail == Closing then Some(Annotation(h[0], h[1], h[2], h[3], h[4], objects)) else None
  }

  predicate UntaggedAnnotation(a: Annotation)
  {
    && Untagged(HeaderValues(a))
    && forall k :: 0 <= k < |a.objects| ==> UntaggedObject(a.objects[k])
  }

  /** A written annotation file reads back as the annotation it was written from. */
  lemma DocumentRoundTrip(a: Annotation)
    requires UntaggedAnnotation(a)
    ensures ReadDocument(DocumentXml(a)) == Some(a)
  {
    HeaderTemplateFacts();
    var rest := ObjectsXml(a.objects) + Closing;
    assert DocumentXml(a) == Fill(HeaderTemplate, HeaderValues(a)) + rest;
    ReadFill(HeaderTemplate, HeaderValues(a), rest);
    assert Closing[1] == '/';
    ObjectsRoundTrip(a.objects, Closing);
    ReadDocumentParts(DocumentXml(a), HeaderValues(a), rest, a.objects);
  }

  /** A header that reads back, followed by objects that read back up to the closing tag. */
  lemma ReadDocumentParts(s: string, h: seq<string>, rest: string, objects: seq<VocObject>)
    requires |h| == 5
    requires Read(HeaderTemplate, s) == Some((h, rest))
    requires ReadObjects(rest) == Some((objects, Closing))
    ensures ReadDocument(s) == Some(Annotation(h[0], h[1], h[2], h[3], h[4], objects))
  {
  }
}
