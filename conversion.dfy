/**
 * The importer's per-item conversion (dataturks_to_voc.py): one JSON line of
 * the labelling export becomes one Pascal VOC annotation file, while a running
 * per-label tally (`PROCESSED`) counts every object written and, under the key
 * `files`, every item converted.
 *
 * The parsed JSON record, the image download and the image's size are inputs:
 * a line is either malformed or a parsed `Item`, and `fetch` stands for
 * downloading (or finding) the image and opening it to read its size.
 */
module Conversion {
  import opened Wrappers
  import opened Text
  import opened Numeric
  import opened BoundingBox
  import opened VocXml

  // ---------------------------------------------------------------------------
  // Label rewriting (REPLACE)
  // ---------------------------------------------------------------------------

  /** Bottle sizes folded into one label per product. */
  const Replace: map<string, string> := map[
    "Курвуазье VSOP 0.7" := "Курвуазье VSOP",
    "Курвуазье VSOP 0.5" := "Курвуазье VSOP",
    "Джим Бим 0.5" := "Джим Бим",
    "Джим Бим 1" := "Джим Бим",
    "Курвуазье VS 0.7" := "Курвуазье VS",
    "Курвуазье VS 0.5" := "Курвуазье VS"
  ]

  /** No replacement is itself rewritten again. */
  lemma ReplaceValuesAreNotKeys()
    ensures forall key :: key in Replace ==> Replace[key] !in Replace
  {
    assert Replace.Keys == {"Курвуазье VSOP 0.7", "Курвуазье VSOP 0.5", "Джим Бим 0.5",
                            "Джим Бим 1", "Курвуазье VS 0.7", "Курвуазье VS 0.5"};
    assert "Курвуазье VSOP"[|"Курвуазье VSOP"| - 1] == 'P';
    assert "Курвуазье VS"[|"Курвуазье VS"| - 1] == 'S';
    assert "Джим Бим"[|"Джим Бим"| - 1] == 'м';
  }

  /** A label after the REPLACE lookup: never a REPLACE key, and unchanged unless it was one. */
  function Canonical(name: string): (c: string)
    ensures c !in Replace
    ensures name !in Replace ==> c == name
    ensures name in Replace ==> c == Replace[name]
  {
    ReplaceValuesAreNotKeys();
    if name in Replace then Replace[name] else name
  }

  /** Rewriting a second time changes nothing. */
  lemma CanonicalIdempotent(name: string)
    ensures Canonical(Canonical(name)) == Canonical(name)
  {
  }

  // ---------------------------------------------------------------------------
  // Parsed input
  // ---------------------------------------------------------------------------

  /** A region's `label`: one string, or a list of strings, one object each. */
  datatype Labels = One(name: string) | Several(labels: seq<string>)

  function LabelList(l: Labels): seq<string>
  {
    match l
    case One(name) => [name]
    case Several(labels) => labels
  }

  /**
   * One entry of `annotation`. `Blank` is a falsy entry (`{}` or `null`). A
   * missing key is `None`; `sized` says whether the entry carries both
   * `imageWidth` and `imageHeight`, which are read from entry 0 only.
   */
  datatype Region =
    | Blank
    | Region(shape: Option<string>, labels: Option<Labels>, points: Option<seq<Point>>, sized: bool)

  /** The record of one line; a missing `content` or `annotation` is `None`. */
  datatype Item = Item(content: Option<string>, annotation: Option<seq<Region>>)

  /** A line of the export file: not JSON at all, or a parsed record. */
  datatype Line = Malformed | Parsed(item: Item)

  datatype ImageSize = ImageSize(width: nat, height: nat)

  /**
   * The surroundings of a conversion: the image and annotation directories,
   * the image fetch (None where downloading or opening raises), and the text
   * Python gives an unrounded coordinate.
   */
  datatype Config = Config(imageDir: string, xmlDir: string,
                           fetch: string -> Option<ImageSize>, show: real -> string)

  datatype XmlFile = XmlFile(path: string, text: string)

  // ---------------------------------------------------------------------------
  // The region walk
  // ---------------------------------------------------------------------------

  /** One object to write: the rewritten label and its box. */
  datatype Detection = Detection(name: string, box: Box)

  /** The objects found so far, and whether the walk got through without raising. */
  datatype Outcome = Outcome(found: seq<Detection>, complete: bool)

  /** A blank region, or one whose `shape` is present and not a rectangle, is passed over. */
  predicate Skipped(r: Region)
  {
    r.Blank? || (r.shape.Some? && r.shape.value != "rectangle")
  }

  /** The box `get_xml_for_bbx` computes for a region, or None where it raises. */
  function BoxOf(r: Region, width: nat, height: nat): Option<Box>
    requires r.Region?
  {
    if r.points.None? then None else Corners(r.points.value, width, height)
  }

  function Detect(labels: seq<string>, b: Box): (found: seq<Detection>)
  {
    seq(|labels|, k requires 0 <= k < |labels| => Detection(Canonical(labels[k]), b))
  }

  /**
   * What one region contributes: nothing when skipped; a failure when it has
   * no `label`; otherwise one detection per label, in order, unless the box
   * raises, which it does at the first label already.
   */
  function RegionOutcome(r: Region, width: nat, height: nat): Outcome
  {
    if Skipped(r) then Outcome([], true)
    else if r.labels.None? then Outcome([], false)
    else
      var labels := LabelList(r.labels.value);
      if labels == [] then Outcome([], true)
      else match BoxOf(r, width, height)
        case None => Outcome([], false)
        case Some(b) => Outcome(Detect(labels, b), true)
  }

  /** The regions in order, stopping at the first one that raises. */
  function Walk(regions: seq<Region>, width: nat, height: nat): Outcome
  {
    if regions == [] then Outcome([], true)
    else
      var before := Walk(regions[..|regions| - 1], width, height);
      if !before.complete then before
      else
        var last := RegionOutcome(regions[|regions| - 1], width, height);
        Outcome(before.found + last.found, last.complete)
  }

  /** Once a region raises, the regions after it change nothing. */
  lemma {:induction false} WalkStops(regions: seq<Region>, n: nat, width: nat, height: nat)
    requires n <= |regions| && !Walk(regions[..n], width, height).complete
    ensures Walk(regions, width, height) == Walk(regions[..n], width, height)
  {
    if n < |regions| {
      var init := regions[..|regions| - 1];
      assert init[..n] == regions[..n];
      WalkStops(init, n, width, height);
    } else {
      assert regions[..n] == regions;
    }
  }

  function LabelsOf(found: seq<Detection>): (labels: seq<string>)
    ensures |labels| == |found|
  {
    seq(|found|, k requires 0 <= k < |found| => found[k].name)
  }

  lemma LabelsOfConcat(a: seq<Detection>, b: seq<Detection>)
    ensures LabelsOf(a + b) == LabelsOf(a) + LabelsOf(b)
  {
  }

  lemma DetectAppend(labels: seq<string>, j: nat, b: Box)
    requires j < |labels|
    ensures Detect(labels[..j + 1], b) == Detect(labels[..j], b) + [Detection(Canonical(labels[j]), b)]
  {
  }

  // ---------------------------------------------------------------------------
  // The PROCESSED tally
  // ---------------------------------------------------------------------------

  /** The count of `key`, zero when it was never inserted. */
  function Get(tally: map<string, int>, key: string): int
  {
    if key in tally then tally[key] else 0
  }

  /** One more object labelled `name`: inserted as 1, or incremented. */
  function Bump(tally: map<string, int>, name: string): map<string, int>
  {
    if name !in tally then tally[name := 1] else tally[name := tally[name] + 1]
  }

  /** A bump adds one to its own label's count, inserting it if absent, and leaves every other count alone. */
  lemma BumpCounts(tally: map<string, int>, name: string)
    ensures Bump(tally, name).Keys == tally.Keys + {name}
    ensures Get(Bump(tally, name), name) == Get(tally, name) + 1
    ensures forall key :: key != name ==> Get(Bump(tally, name), key) == Get(tally, key)
  {
  }

  /** The tally after one bump per label, in order. */
  function BumpAll(tally: map<string, int>, labels: seq<string>): map<string, int>
  {
    if labels == [] then tally
    else Bump(BumpAll(tally, labels[..|labels| - 1]), labels[|labels| - 1])
  }

  lemma BumpAllSnoc(tally: map<string, int>, labels: seq<string>, name: string)
    ensures BumpAll(tally, labels + [name]) == Bump(BumpAll(tally, labels), name)
  {
    assert (labels + [name])[..|labels|] == labels;
  }

  function Count(labels: seq<string>, key: string): (n: nat)
    ensures n <= |labels|
  {
    if labels == [] then 0
    else Count(labels[..|labels| - 1], key) + (if labels[|labels| - 1] == key then 1 else 0)
  }

  /** Each label adds exactly one to its own count and nothing to any other; no key is lost. */
  lemma {:induction false} BumpAllCounts(tally: map<string, int>, labels: seq<string>)
    ensures forall key :: Get(BumpAll(tally, labels), key) == Get(tally, key) + Count(labels, key)
    ensures forall key :: key in BumpAll(tally, labels) <==> key in tally || key in labels
  {
    if labels != [] {
      var init := labels[..|labels| - 1];
      BumpAllCounts(tally, init);
      BumpCounts(BumpAll(tally, init), labels[|labels| - 1]);
      assert labels == init + [labels[|labels| - 1]];
    }
  }

  /** A key once present stays present. */
  lemma {:induction false} BumpAllKeeps(tally: map<string, int>, labels: seq<string>, key: string)
    requires key in tally
    ensures key in BumpAll(tally, labels)
  {
    if labels != [] {
      BumpAllKeeps(tally, labels[..|labels| - 1], key);
    }
  }

  lemma {:induction false} CountAppend(a: seq<string>, b: seq<string>, key: string)
    ensures Count(a + b, key) == Count(a, key) + Count(b, key)
  {
    if b == [] {
      assert a + b == a;
    } else {
      assert (a + b)[..|a + b| - 1] == a + b[..|b| - 1];
      CountAppend(a, b[..|b| - 1], key);
    }
  }

  lemma {:induction false} BumpAllAppend(tally: map<string, int>, a: seq<string>, b: seq<string>)
    ensures BumpAll(tally, a + b) == BumpAll(BumpAll(tally, a), b)
  {
    if b == [] {
      assert a + b == a;
    } else {
      assert (a + b)[..|a + b| - 1] == a + b[..|b| - 1];
      BumpAllAppend(tally, a, b[..|b| - 1]);
    }
  }

  // ---------------------------------------------------------------------------
  // One item
  // ---------------------------------------------------------------------------

  /** The labels the item added to the tally, and the annotation file if it returned True. */
  datatype ItemResult = ItemResult(counted: seq<string>, written: Option<XmlFile>)

  /** A corner as written: `str()` of the truncated int, or Python's text for the unrounded value. */
  function CoordText(c: Coord, show: real -> string): string
  {
    match c
    case Exact(r) => show(r)
    case Whole(i) => IntText(i)
  }

  function Render(d: Detection, show: real -> string): VocObject
  {
    VocObject(d.name, CoordText(d.box.xmin, show), CoordText(d.box.ymin, show),
              CoordText(d.box.xmax, show), CoordText(d.box.ymax, show))
  }

  function RenderAll(found: seq<Detection>, show: real -> string): (objects: seq<VocObject>)
    ensures |objects| == |found|
  {
    seq(|found|, k requires 0 <= k < |found| => Render(found[k], show))
  }

  lemma RenderAllConcat(a: seq<Detection>, b: seq<Detection>, show: real -> string)
    ensures RenderAll(a + b, show) == RenderAll(a, show) + RenderAll(b, show)
  {
  }

  /** One label of a region: what writing and counting its object does to the item's text and tally. */
  lemma LabelStep(tally: map<string, int>, found: seq<Detection>, labels: seq<string>, j: nat, b: Box,
                  d: Detection, show: real -> string)
    requires j < |labels| && d == Detection(Canonical(labels[j]), b)
    requires found == if j == 0 then [] else Detect(labels[..j], b)
    ensures found + [d] == Detect(labels[..j + 1], b)
    ensures ObjectsXml(RenderAll(found + [d], show)) == ObjectsXml(RenderAll(found, show)) + ObjectXml(Render(d, show))
    ensures BumpAll(tally, LabelsOf(found + [d])) == Bump(BumpAll(tally, LabelsOf(found)), d.name)
  {
    DetectAppend(labels, j, b);
    ObjectsXmlAppend(RenderAll(found, show), Render(d, show));
    RenderAllConcat(found, [d], show);
    assert RenderAll([d], show) == [Render(d, show)];
    LabelsOfConcat(found, [d]);
    assert LabelsOf([d]) == [d.name];
    BumpAllSnoc(tally, LabelsOf(found), d.name);
  }

  /** Where the image is kept: the URL's last segment under the image directory. */
  function ImagePath(imageDir: string, url: string): string
  {
    PathJoin(imageDir, LastSegment(url))
  }

  function HeaderFor(imageDir: string, filePath: string, size: ImageSize): (values: seq<string>)
    ensures |values| == 5
  {
    [LastSegment(imageDir), LastSegment(filePath), filePath, IntText(size.width), IntText(size.height)]
  }

  /** True when the record gets as far as the region loop: the checks before line 127. */
  predicate Admitted(item: Item)
  {
    && item.annotation.Some? && item.annotation.value != []
    && item.annotation.value[0].Region? && item.annotation.value[0].sized
    && item.content.Some?
  }

  /** `convert_to_PascalVOC` for one line: what it adds to the tally and the file it writes. */
  function Convert(line: Line, cfg: Config): ItemResult
  {
    if line.Malformed? || !Admitted(line.item) then ItemResult([], None)
    else
      var url := line.item.content.value;
      match cfg.fetch(url)
      case None => ItemResult([], None)
      case Some(size) =>
        var regions := line.item.annotation.value;
        var outcome := Walk(regions, size.width, size.height);
        var counted := LabelsOf(outcome.found);
        if !outcome.complete then ItemResult(counted, None)
        else
          var filePath := ImagePath(cfg.imageDir, url);
          var a := AnnotationFor(cfg.imageDir, url, size, outcome.found, cfg.show);
          ItemResult(counted, Some(XmlFile(PathJoin(cfg.xmlDir, LastSegment(filePath) + ".xml"), DocumentXml(a))))
  }

  // ---------------------------------------------------------------------------
  // The whole run (main)
  // ---------------------------------------------------------------------------

  /** What one item does to the tally: its labels, then `files` once if it returned True. */
  function Apply(tally: map<string, int>, r: ItemResult): map<string, int>
  {
    var after := BumpAll(tally, r.counted);
    if r.written.Some? then Bump(after, "files") else after
  }

  /** `PROCESSED['files'] += 1` after the item's labels, when it returned True. */
  lemma ApplyFiles(tally: map<string, int>, r: ItemResult, ok: bool, file: Option<XmlFile>,
                   after: map<string, int>, written: seq<XmlFile>)
    requires file == r.written && ok == file.Some?
    requires "files" in BumpAll(tally, r.counted)
    requires var counted := BumpAll(tally, r.counted);
      after == if ok then counted["files" := counted["files"] + 1] else counted
    requires written == if ok then [file.value] else []
    ensures after == Apply(tally, r) && written == Emit(r)
  {
  }

  /** The file one item writes, if any. */
  function Emit(r: ItemResult): seq<XmlFile>
  {
    if r.written.Some? then [r.written.value] else []
  }

  /** The tally after the lines, item by item. */
  function Tally(tally: map<string, int>, lines: seq<Line>, cfg: Config): map<string, int>
  {
    if lines == [] then tally
    else Apply(Tally(tally, lines[..|lines| - 1], cfg), Convert(lines[|lines| - 1], cfg))
  }

  /** The files written, in line order. */
  function Written(lines: seq<Line>, cfg: Config): seq<XmlFile>
  {
    if lines == [] then []
    else Written(lines[..|lines| - 1], cfg) + Emit(Convert(lines[|lines| - 1], cfg))
  }

  function Succeeded(lines: seq<Line>, cfg: Config): (n: nat)
    ensures n <= |lines|
  {
    if lines == [] then 0
    else Succeeded(lines[..|lines| - 1], cfg) + (if Convert(lines[|lines| - 1], cfg).written.Some? then 1 else 0)
  }

  /** One more line: its item is applied to the tally and its file, if any, appended. */
  lemma TallyStep(tally: map<string, int>, lines: seq<Line>, n: nat, cfg: Config)
    requires n < |lines|
    ensures Tally(tally, lines[..n + 1], cfg) == Apply(Tally(tally, lines[..n], cfg), Convert(lines[n], cfg))
    ensures Written(lines[..n + 1], cfg) == Written(lines[..n], cfg) + Emit(Convert(lines[n], cfg))
  {
    assert lines[..n + 1][..n] == lines[..n] && lines[..n + 1][n] == lines[n];
  }

  /** Every label any item counted, in order. */
  function AllCounted(lines: seq<Line>, cfg: Config): seq<string>
  {
    if lines == [] then []
    else AllCounted(lines[..|lines| - 1], cfg) + Convert(lines[|lines| - 1], cfg).counted
  }

  // ---------------------------------------------------------------------------
  // Properties
  // ---------------------------------------------------------------------------

  /** A blank or non-rectangle region adds no object and no count. */
  lemma SkippedRegionInert(regions: seq<Region>, r: Region, width: nat, height: nat)
    requires Skipped(r)
    ensures Walk(regions + [r], width, height) == Walk(regions, width, height)
  {
    assert (regions + [r])[..|regions|] == regions;
    assert Walk(regions, width, height).found + [] == Walk(regions, width, height).found;
  }

  /**
   * A region with labels and a readable box yields one object per label, in
   * label order, each under its rewritten label and with the region's box; a
   * single label yields exactly one.
   */
  lemma RegionObjects(r: Region, width: nat, height: nat)
    requires r.Region? && !Skipped(r) && r.labels.Some? && BoxOf(r, width, height).Some?
    ensures var o := RegionOutcome(r, width, height);
      && o.complete
      && |o.found| == |LabelList(r.labels.value)|
      && (forall k :: 0 <= k < |o.found| ==>
            o.found[k] == Detection(Canonical(LabelList(r.labels.value)[k]), BoxOf(r, width, height).value))
      && (r.labels.value.One? ==> |o.found| == 1)
  {
  }

  predicate CanonicalLabels(found: seq<Detection>)
  {
    forall k :: 0 <= k < |found| ==> found[k].name !in Replace
  }

  lemma {:induction false} WalkCanonical(regions: seq<Region>, width: nat, height: nat)
    ensures CanonicalLabels(Walk(regions, width, height).found)
  {
    if regions != [] {
      WalkCanonical(regions[..|regions| - 1], width, height);
    }
  }

  /** No label the tally counts is a REPLACE key. */
  lemma CountedAreCanonical(line: Line, cfg: Config)
    ensures forall k :: 0 <= k < |Convert(line, cfg).counted| ==> Convert(line, cfg).counted[k] !in Replace
  {
    if line.Parsed? && Admitted(line.item) && cfg.fetch(line.item.content.value).Some? {
      var size := cfg.fetch(line.item.content.value).value;
      WalkCanonical(line.item.annotation.value, size.width, size.height);
    }
  }

  lemma {:induction false} AllCountedCanonical(lines: seq<Line>, cfg: Config)
    ensures forall k :: 0 <= k < |AllCounted(lines, cfg)| ==> AllCounted(lines, cfg)[k] !in Replace
  {
    if lines != [] {
      AllCountedCanonical(lines[..|lines| - 1], cfg);
      CountedAreCanonical(lines[|lines| - 1], cfg);
    }
  }

  /**
   * A walk that raises stops at one region: every region before it went
   * through, and what was found is what those regions found.
   */
  lemma {:induction false} WalkFailure(regions: seq<Region>, width: nat, height: nat)
    requires !Walk(regions, width, height).complete
    ensures exists n ::
              && 0 <= n < |regions|
              && Walk(regions[..n], width, height).complete
              && !RegionOutcome(regions[n], width, height).complete
              && Walk(regions, width, height).found == Walk(regions[..n], width, height).found
  {
    var init := regions[..|regions| - 1];
    var before := Walk(init, width, height);
    if !before.complete {
      WalkFailure(init, width, height);
      var n :| 0 <= n < |init| && Walk(init[..n], width, height).complete
        && !RegionOutcome(init[n], width, height).complete
        && before.found == Walk(init[..n], width, height).found;
      assert init[..n] == regions[..n] && init[n] == regions[n];
    } else {
      var n := |regions| - 1;
      assert regions[..n] == init;
      assert before.found + [] == before.found;
    }
  }

  /**
   * How an item ends: a line that is not JSON, or whose annotation is empty or
   * lacks the size keys, touches nothing; a file is written only when every
   * region went through; and an item that raises in its region loop writes no
   * file but keeps the counts of the regions before the one that raised.
   */
  lemma ItemOutcome(line: Line, cfg: Config)
    ensures line.Malformed? || !Admitted(line.item) ==> Convert(line, cfg) == ItemResult([], None)
    ensures line.Parsed? && Admitted(line.item) && cfg.fetch(line.item.content.value).None? ==>
      Convert(line, cfg) == ItemResult([], None)
    ensures Convert(line, cfg).written.Some? <==>
      && line.Parsed? && Admitted(line.item) && cfg.fetch(line.item.content.value).Some?
      && var size := cfg.fetch(line.item.content.value).value;
         Walk(line.item.annotation.value, size.width, size.height).complete
    ensures line.Parsed? && Admitted(line.item) && cfg.fetch(line.item.content.value).Some? ==>
      var size := cfg.fetch(line.item.content.value).value;
      Convert(line, cfg).counted == LabelsOf(Walk(line.item.annotation.value, size.width, size.height).found)
    ensures line.Parsed? && Admitted(line.item) && cfg.fetch(line.item.content.value).Some? ==>
      var size := cfg.fetch(line.item.content.value).value;
      var regions := line.item.annotation.value;
      !Walk(regions, size.width, size.height).complete ==>
        && Convert(line, cfg).written.None?
        && exists n ::
             && 0 <= n < |regions|
             && !RegionOutcome(regions[n], size.width, size.height).complete
             && Convert(line, cfg).counted == LabelsOf(Walk(regions[..n], size.width, size.height).found)
  {
    if line.Parsed? && Admitted(line.item) && cfg.fetch(line.item.content.value).Some? {
      var size := cfg.fetch(line.item.content.value).value;
      var regions := line.item.annotation.value;
      if !Walk(regions, size.width, size.height).complete {
        WalkFailure(regions, size.width, size.height);
      }
    }
  }

  lemma {:induction false} CountAbsent(labels: seq<string>, key: string)
    requires forall k :: 0 <= k < |labels| ==> labels[k] != key
    ensures Count(labels, key) == 0
  {
    if labels != [] {
      CountAbsent(labels[..|labels| - 1], key);
    }
  }

  /**
   * After any run: `files` went up once per item that returned True and once
   * per object labelled `files` (the two share one key); every other count
   * went up once per object with that label.
   */
  lemma {:induction false} TallyCounts(tally: map<string, int>, lines: seq<Line>, cfg: Config)
    ensures Get(Tally(tally, lines, cfg), "files")
         == Get(tally, "files") + Succeeded(lines, cfg) + Count(AllCounted(lines, cfg), "files")
    ensures forall key :: key != "files" ==>
      Get(Tally(tally, lines, cfg), key) == Get(tally, key) + Count(AllCounted(lines, cfg), key)
  {
    if lines != [] {
      var init := lines[..|lines| - 1];
      var r := Convert(lines[|lines| - 1], cfg);
      TallyCounts(tally, init, cfg);
      ApplyCounts(Tally(tally, init, cfg), r);
      CountAppend(AllCounted(init, cfg), r.counted, "files");
      forall key | key != "files"
        ensures Get(Tally(tally, lines, cfg), key) == Get(tally, key) + Count(AllCounted(lines, cfg), key)
      {
        CountAppend(AllCounted(init, cfg), r.counted, key);
      }
    }
  }

  /** One item adds its labels' occurrences to their counts, and one more to `files` if it wrote a file. */
  lemma ApplyCounts(tally: map<string, int>, r: ItemResult)
    ensures Get(Apply(tally, r), "files")
         == Get(tally, "files") + (if r.written.Some? then 1 else 0) + Count(r.counted, "files")
    ensures forall key :: key != "files" ==> Get(Apply(tally, r), key) == Get(tally, key) + Count(r.counted, key)
  {
    BumpAllCounts(tally, r.counted);
    BumpCounts(BumpAll(tally, r.counted), "files");
  }

  /** A REPLACE key never gains a count: its count after a run is what it was before. */
  lemma ReplaceKeysNeverCounted(tally: map<string, int>, lines: seq<Line>, cfg: Config, key: string)
    requires key in Replace
    ensures Get(Tally(tally, lines, cfg), key) == Get(tally, key)
  {
    TallyCounts(tally, lines, cfg);
    AllCountedCanonical(lines, cfg);
    CountAbsent(AllCounted(lines, cfg), key);
  }

  lemma IntTextUntagged(i: int)
    ensures Plain(IntText(i))
  {
    var s := IntText(i);
    forall k | 0 <= k < |s| ensures s[k] != '<' && s[k] != '&' {
      assert IsDigit(s[k]) || s[k] == '-';
    }
  }

  lemma SuffixUntagged(t: string, s: string)
    requires IsSuffix(t, s) && Plain(s)
    ensures Plain(t)
  {
    forall k | 0 <= k < |t| ensures t[k] != '<' && t[k] != '&' {
      assert t[k] == s[|s| - |t| + k];
    }
  }

  lemma PathJoinUntagged(a: string, b: string)
    requires Plain(a) && Plain(b)
    ensures Plain(PathJoin(a, b))
  {
  }

  lemma RenderedUntagged(found: seq<Detection>, show: real -> string)
    requires forall r :: Plain(show(r))
    requires forall k :: 0 <= k < |found| ==> Plain(found[k].name)
    ensures forall k :: 0 <= k < |found| ==> UntaggedObject(RenderAll(found, show)[k])
  {
    forall k | 0 <= k < |found| ensures UntaggedObject(RenderAll(found, show)[k]) {
      var b := found[k].box;
      match b.xmin { case Exact(r) => case Whole(i) => IntTextUntagged(i); }
      match b.ymin { case Exact(r) => case Whole(i) => IntTextUntagged(i); }
      match b.xmax { case Exact(r) => case Whole(i) => IntTextUntagged(i); }
      match b.ymax { case Exact(r) => case Whole(i) => IntTextUntagged(i); }
    }
  }

  /** The annotation an item writes, built from its image, size and objects. */
  function AnnotationFor(imageDir: string, url: string, size: ImageSize, found: seq<Detection>,
                         show: real -> string): Annotation
  {
    var filePath := ImagePath(imageDir, url);
    Annotation(LastSegment(imageDir), LastSegment(filePath), filePath,
               IntText(size.width), IntText(size.height), RenderAll(found, show))
  }

  lemma HeaderUntagged(imageDir: string, url: string, size: ImageSize)
    requires Plain(imageDir) && Plain(url)
    ensures var filePath := ImagePath(imageDir, url);
      && Plain(LastSegment(imageDir)) && Plain(LastSegment(filePath)) && Plain(filePath)
      && Plain(IntText(size.width)) && Plain(IntText(size.height))
  {
    var filePath := ImagePath(imageDir, url);
    SuffixUntagged(LastSegment(url), url);
    PathJoinUntagged(imageDir, LastSegment(url));
    SuffixUntagged(LastSegment(filePath), filePath);
    SuffixUntagged(LastSegment(imageDir), imageDir);
    IntTextUntagged(size.width);
    IntTextUntagged(size.height);
  }

  lemma AnnotationForUntagged(imageDir: string, url: string, size: ImageSize, found: seq<Detection>,
                              show: real -> string)
    requires Plain(imageDir) && Plain(url)
    requires forall r :: Plain(show(r))
    requires forall k :: 0 <= k < |LabelsOf(found)| ==> Plain(LabelsOf(found)[k])
    ensures UntaggedAnnotation(AnnotationFor(imageDir, url, size, found, show))
  {
    var a := AnnotationFor(imageDir, url, size, found, show);
    HeaderUntagged(imageDir, url, size);
    var values := HeaderValues(a);
    forall k | 0 <= k < |values| ensures Plain(values[k]) {
      if k == 0 { assert values[k] == a.folder; }
      else if k == 1 { assert values[k] == a.fileName; }
      else if k == 2 { assert values[k] == a.path; }
      else if k == 3 { assert values[k] == a.width; }
      else { assert values[k] == a.height; }
    }
    assert forall k :: 0 <= k < |found| ==> Plain(found[k].name) by {
      forall k | 0 <= k < |found| ensures Plain(found[k].name) {
        assert LabelsOf(found)[k] == found[k].name;
      }
    }
    RenderedUntagged(found, show);
  }

  /**
   * The file an item writes sits at `<xml dir>/<last URL segment>.xml`, names
   * that segment as its file name, and reads back with one object per counted
   * label, in the order counted.
   */
  lemma WrittenFileAgrees(line: Line, cfg: Config)
    requires Convert(line, cfg).written.Some?
    requires Plain(cfg.imageDir) && Plain(line.item.content.value)
    requires forall r :: Plain(cfg.show(r))
    requires forall k :: 0 <= k < |Convert(line, cfg).counted| ==> Plain(Convert(line, cfg).counted[k])
    ensures var url := line.item.content.value;
      && Convert(line, cfg).written.value.path == PathJoin(cfg.xmlDir, LastSegment(url) + ".xml")
      && ReadDocument(Convert(line, cfg).written.value.text).Some?
      && var a := ReadDocument(Convert(line, cfg).written.value.text).value;
         && a.fileName == LastSegment(url)
         && a.path == ImagePath(cfg.imageDir, url)
         && |a.objects| == |Convert(line, cfg).counted|
         && forall k :: 0 <= k < |a.objects| ==> a.objects[k].name == Convert(line, cfg).counted[k]
  {
    var url := line.item.content.value;
    var size := cfg.fetch(url).value;
    var found := Walk(line.item.annotation.value, size.width, size.height).found;
    var a := AnnotationFor(cfg.imageDir, url, size, found, cfg.show);
    LastSegmentOfPathJoin(cfg.imageDir, LastSegment(url));
    assert Convert(line, cfg) == ItemResult(LabelsOf(found),
      Some(XmlFile(PathJoin(cfg.xmlDir, LastSegment(url) + ".xml"), DocumentXml(a))));
    AnnotationForUntagged(cfg.imageDir, url, size, found, cfg.show);
    DocumentRoundTrip(a);
  }

  /**
   * The importer's mutable state: the `PROCESSED` tally, created with
   * `files` at zero.
   */
  class Importer {
    var processed: map<string, int>

    predicate Valid()
      reads this
    {
      "files" in processed
    }

    constructor()
      ensures Valid()
      ensures processed == map["files" := 0]
    {
      processed := map["files" := 0];
    }

    /**
     * One label of a region: rewritten through REPLACE, its object written and
     * counted; nothing happens when the region's box raises.
     */
    method AddLabel(given: string, region: Region, size: ImageSize, show: real -> string)
      returns (ok: bool, text: string)
      requires region.Region?
      modifies this
      ensures var box := BoxOf(region, size.width, size.height);
        && ok == box.Some?
        && (ok ==> var d := Detection(Canonical(given), box.value);
                   text == ObjectXml(Render(d, show)) && processed == Bump(old(processed), d.name))
        && (!ok ==> text == "" && processed == old(processed))
    {
      var name := given;
      if name in Replace {
        name := Replace[name];
      }
      var corners := BoxOf(region, size.width, size.height);
      if corners.None? {
        return false, "";
      }
      text := ObjectXml(Render(Detection(name, corners.value), show));
      if name !in processed {
        processed := processed[name := 1];
      } else {
        processed := processed[name := processed[name] + 1];
      }
      ok := true;
    }

    /**
     * The label loop for one region: one object per label, each counted once;
     * a missing `label` or a box that raises ends the item.
     */
    method AddRegion(region: Region, size: ImageSize, show: real -> string) returns (complete: bool, text: string)
      modifies this
      ensures var o := RegionOutcome(region, size.width, size.height);
        && complete == o.complete
        && text == ObjectsXml(RenderAll(o.found, show))
        && processed == BumpAll(old(processed), LabelsOf(o.found))
    {
      text := "";
      if region.Blank? || (region.shape.Some? && region.shape.value != "rectangle") {
        return true, text;
      }
      if region.labels.None? {
        return false, text;
      }
      var labels := LabelList(region.labels.value);
      ghost var box := BoxOf(region, size.width, size.height);
      ghost var found: seq<Detection> := [];
      var j := 0;
      while j < |labels|
        invariant 0 <= j <= |labels|
        invariant j == 0 ==> found == [] && text == "" && processed == old(processed)
        invariant j > 0 ==> box.Some? && found == Detect(labels[..j], box.value)
        invariant text == ObjectsXml(RenderAll(found, show))
        invariant processed == BumpAll(old(processed), LabelsOf(found))
      {
        var ok, more := AddLabel(labels[j], region, size, show);
        if !ok {
          return false, text;
        }
        var d := Detection(Canonical(labels[j]), box.value);
        LabelStep(old(processed), found, labels, j, box.value, d, show);
        text := text + more;
        found := found + [d];
        j := j + 1;
      }
      assert labels[..j] == labels;
      return true, text;
    }

    /** The region loop: the regions in order until one raises. */
    method AddRegions(regions: seq<Region>, size: ImageSize, show: real -> string) returns (complete: bool, text: string)
      modifies this
      ensures var o := Walk(regions, size.width, size.height);
        && complete == o.complete
        && text == ObjectsXml(RenderAll(o.found, show))
        && processed == BumpAll(old(processed), LabelsOf(o.found))
    {
      text := "";
      ghost var found: seq<Detection> := [];
      var i := 0;
      while i < |regions|
        invariant 0 <= i <= |regions|
        invariant Walk(regions[..i], size.width, size.height) == Outcome(found, true)
        invariant text == ObjectsXml(RenderAll(found, show))
        invariant processed == BumpAll(old(processed), LabelsOf(found))
      {
        ghost var before := processed;
        ghost var o := RegionOutcome(regions[i], size.width, size.height);
        assert regions[..i + 1][..i] == regions[..i] && regions[..i + 1][i] == regions[i];
        var ok, more := AddRegion(regions[i], size, show);
        ObjectsXmlConcat(RenderAll(found, show), RenderAll(o.found, show));
        RenderAllConcat(found, o.found, show);
        LabelsOfConcat(found, o.found);
        BumpAllAppend(old(processed), LabelsOf(found), LabelsOf(o.found));
        text := text + more;
        found := found + o.found;
        if !ok {
          WalkStops(regions, i + 1, size.width, size.height);
          return false, text;
        }
        i := i + 1;
      }
      assert regions[..i] == regions;
      return true, text;
    }

    /**
     * One line, as `convert_to_PascalVOC` handles it: True and the file it
     * writes, or False and no file; the tally keeps every increment made
     * before a failure.
     */
    method ConvertItem(line: Line, cfg: Config) returns (ok: bool, written: Option<XmlFile>)
      modifies this
      ensures written == Convert(line, cfg).written && ok == written.Some?
      ensures processed == BumpAll(old(processed), Convert(line, cfg).counted)
    {
      if line.Malformed? {
        return false, None;
      }
      var item := line.item;
      if item.annotation.None? || |item.annotation.value| == 0 {
        return false, None;
      }
      var regions := item.annotation.value;
      if regions[0].Blank? || !regions[0].sized || item.content.None? {
        return false, None;
      }
      var url := item.content.value;
      var fetched := cfg.fetch(url);
      if fetched.None? {
        return false, None;
      }
      var size := fetched.value;
      var filePath := ImagePath(cfg.imageDir, url);
      var fileName := LastSegment(filePath);
      HeaderTemplateFacts();
      var xml := Fill(HeaderTemplate, HeaderFor(cfg.imageDir, filePath, size));
      var complete, objects := AddRegions(regions, size, cfg.show);
      if !complete {
        return false, None;
      }
      xml := xml + objects + Closing;
      return true, Some(XmlFile(PathJoin(cfg.xmlDir, fileName + ".xml"), xml));
    }

    /** One turn of `main`'s loop: the item is converted, and `files` bumped if it returned True. */
    method Step(line: Line, cfg: Config) returns (written: seq<XmlFile>)
      requires Valid()
      modifies this
      ensures Valid()
      ensures processed == Apply(old(processed), Convert(line, cfg))
      ensures written == Emit(Convert(line, cfg))
    {
      ghost var r := Convert(line, cfg);
      var ok, file := ConvertItem(line, cfg);
      BumpAllKeeps(old(processed), r.counted, "files");
      written := [];
      if ok {
        processed := processed["files" := processed["files"] + 1];
        written := [file.value];
      }
      ApplyFiles(old(processed), r, ok, file, processed, written);
    }

    /** `main`'s loop: every line converted in order, `files` bumped for each True. */
    method Run(lines: seq<Line>, cfg: Config) returns (files: seq<XmlFile>)
      requires Valid()
      modifies this
      ensures Valid()
      ensures processed == Tally(old(processed), lines, cfg)
      ensures files == Written(lines, cfg)
    {
      files := [];
      var n := 0;
      while n < |lines|
        invariant 0 <= n <= |lines|
        invariant Valid()
        invariant processed == Tally(old(processed), lines[..n], cfg)
        invariant files == Written(lines[..n], cfg)
      {
        var written := Step(lines[n], cfg);
        files := files + written;
        TallyStep(old(processed), lines, n, cfg);
        n := n + 1;
      }
      assert lines[..n] == lines;
    }
  }
}
