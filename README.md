# Dataturks to Pascal VOC to YOLO-style lists, in Dafny

This project models two scripts of a small object-detection data pipeline.

- `dataturks_to_voc.py` is the importer. It reads the export of the Dataturks labelling tool, one JSON record per line. For each record it writes one Pascal VOC annotation file, named after the last segment of the image URL with `.xml` appended (`<image>.jpg.xml` for a URL ending in `.jpg`). It counts every object it writes in a per-label tally (`PROCESSED`), and counts every converted image under the key `files`. It then cuts the image directory's listing into a test part and a trainval part. For each part it writes an image-set manifest (`ImageSets/Main/test.txt`, `trainval.txt`) and renames each listed annotation so that ".jpg" drops out of its name.
- `voc_annotation.py` is the flattener. For each (year, image set) pair it reads the manifest. For every listed image id it writes one line to `<year>_<set>.txt`: the absolute image path, then one ` xmin,ymin,xmax,ymax,class_id` group per object whose name is one of seven known classes.

Modules:

- `Wrappers`: `Option`.
- `Text`: digits, `str(int)`, `split("/")[-1]`, `replace(p, "")`, `os.path.join`, `strip()`/`split()`, `split(c)` and `c.join`.
- `Numeric`: `int()` truncation toward zero, `n * f` as repeated addition, `float()`/`int(float())` of a text.
- `BoundingBox`: the box computation of `get_xml_for_bbx`.
- `VocXml`: the XML text both scripts exchange, written from templates and read back by a small reader.
- `Conversion`: the importer's per-item conversion and `main` loop, with the tally as the field of the class `Importer`.
- `DatasetSplit`: the test/trainval split and `process_anotation_dir`.
- `Flattener`: `voc_annotation.py`. Its functions take the class list as a parameter; the script's own list is `Flattener.Classes`.
- `Interchange`: lemmas connecting what the importer writes to what the flattener reads.

The model follows the code in these places, where the code differs from what one might expect of the scripts:

- A blank line of the export is not skipped. It fails `json.loads`, so the item is not converted.
- The first annotation entry must carry `imageWidth` and `imageHeight`, or the item is not converted, even though the image's own size then replaces both values.
- A label literally named `files` shares the counter of converted items (`Conversion.TallyCounts`).
- A negative test percentage is not rejected. It becomes a negative slice bound, which counts from the end (`DatasetSplit.NegativePercent`).
- Every `int()` truncates toward zero, not toward minus infinity.
- A labelled image whose objects all fall outside the known classes still gets a line in the flattened list: its path alone.

## Model

| member | source | states |
|---|---|---|
| Conversion.ReplaceValuesAreNotKeys | dataturks_to_voc.py:15-22 | no replacement label is itself a key of the rewrite table |
| Conversion.Canonical | dataturks_to_voc.py:140-141 | a label after the lookup is never a table key; it is unchanged unless it was a key, and then it is the table's value |
| Conversion.CanonicalIdempotent | dataturks_to_voc.py:140-141 | rewriting a rewritten label changes nothing |
| Interchange.ReplaceTargetsAreClasses | dataturks_to_voc.py:15-22 | every replacement label is one of the flattener's classes |
| Interchange.CanonicalKept | dataturks_to_voc.py:140-141 | a rewritten label is a known class exactly when the original was a class or a table key |
| BoundingBox.Corners | dataturks_to_voc.py:48-68 | `get_xml_for_bbx`'s corners: a box only from at least two points, and a four-point box is ordered (xmin <= xmax, ymin <= ymax); FourCornerBox and TwoPointBox give each form in full |
| BoundingBox.FourCornerBox | dataturks_to_voc.py:50-60 | four corner pairs give width/height times the least and greatest coordinate per axis, so xmin <= xmax and ymin <= ymax |
| BoundingBox.FourCornerOrderIrrelevant | dataturks_to_voc.py:50-60 | the four-corner box does not depend on the order of the corners (any permutation gives the same box) |
| BoundingBox.TwoPointBox | dataturks_to_voc.py:62-68 | other point lists take point 0 and point 1, each scaled and truncated toward zero |
| BoundingBox.TwoPointBoxUnordered | dataturks_to_voc.py:62-68 | the points are not reordered, so (0.8, 0.9), (0.1, 0.2) on a 10x10 image gives xmin 8 > xmax 1 |
| BoundingBox.CornersWithinImage | dataturks_to_voc.py:50-68 | fractions in [0, 1] give corners inside [0, width] x [0, height] in both forms |
| Numeric.Trunc | dataturks_to_voc.py:65-68 | `int()` drops the fraction toward zero for either sign |
| VocXml.ObjectRoundTrip | dataturks_to_voc.py:70-83 | an object block (`VocXml.ObjectXml`) reads back as the name and four corner texts it was written from, the following text untouched, when none holds `<` or `&` |
| VocXml.ObjectOpens | dataturks_to_voc.py:70-71 | an object block (`VocXml.ObjectXml`) opens with the `<object>` tag, whatever follows it |
| VocXml.ObjectsRoundTrip | dataturks_to_voc.py:139-142 | the object blocks of an item read back as its objects, in order |
| VocXml.DocumentRoundTrip | dataturks_to_voc.py:116-148 | the text `VocXml.DocumentXml` builds (header, object blocks, closing tag) reads back as its folder, file name, path, size and objects, when no value holds `<` or `&` |
| Text.LastSegment | dataturks_to_voc.py:29 | the last '/'-segment: slash-free, a suffix, preceded by '/' unless it is the whole text |
| Text.LastSegmentUnique | dataturks_to_voc.py:113-114 | any text with those three properties is the last segment |
| Text.LastSegmentOfPathJoin | dataturks_to_voc.py:29-30 | the file name of `join(image_dir, last segment of the URL)` is that last segment |
| Conversion.SkippedRegionInert | dataturks_to_voc.py:128-132 | a blank or non-rectangle region adds no object and no count |
| Conversion.RegionObjects | dataturks_to_voc.py:134-142 | a labelled region with a readable box yields one object per label, in order, each under its rewritten label with the region's box; a single label yields one |
| Conversion.WalkStops | dataturks_to_voc.py:127-142 | once a region raises, later regions change nothing |
| Conversion.WalkFailure | dataturks_to_voc.py:127-157 | a walk that raises stops at one region, and what it found is what the regions before that region found |
| Conversion.BumpCounts | dataturks_to_voc.py:143-146 | a count inserts its label at 1 or adds one, and leaves every other count alone |
| Conversion.BumpAllCounts | dataturks_to_voc.py:139-146 | after a label sequence each count grew by that label's number of occurrences, and no key was lost |
| Conversion.ItemOutcome | dataturks_to_voc.py:97-157 | `convert_to_PascalVOC` (`Conversion.Convert`): a non-JSON line, an empty annotation, a first entry without the size keys or an image that cannot be fetched changes nothing; a file is written exactly when the line parsed, was admitted, its image was fetched and the whole region loop went through; the counts are those of the regions walked, and a failure keeps the counts of the regions before the one that raised |
| Conversion.CountedAreCanonical | dataturks_to_voc.py:139-146 | no counted label is a rewrite-table key |
| Conversion.ApplyCounts | dataturks_to_voc.py:143-146 | one item adds one to `files` when its file is written, plus its objects labelled `files`; every other label grows by its number of objects |
| Conversion.TallyCounts | dataturks_to_voc.py:184-189 | after a run `files` grew by the items converted plus the objects labelled `files`; every other label grew by its number of objects |
| Conversion.ReplaceKeysNeverCounted | dataturks_to_voc.py:139-146 | a rewrite-table key's count never changes |
| Conversion.WrittenFileAgrees | dataturks_to_voc.py:113-153 | the written file sits at `<xml dir>/<last URL segment>.xml`, names that segment, and reads back with one object per counted label, in order |
| Conversion.Importer.constructor | dataturks_to_voc.py:24 | the tally starts as `files` at zero |
| Conversion.Importer.AddLabel | dataturks_to_voc.py:139-146 | one label of a region: when the box can be computed, its object block under the rewritten label is written and that label's count goes up by one; otherwise nothing is written and no count changes |
| Conversion.Importer.AddRegion | dataturks_to_voc.py:127-146 | the label loop writes and counts exactly the region's objects, or stops where the source raises |
| Conversion.Importer.AddRegions | dataturks_to_voc.py:127-146 | the region loop writes and counts the walk's objects, in order, stopping at the first region that raises |
| Conversion.Importer.ConvertItem | dataturks_to_voc.py:97-157 | True with the item's file, or False with none; the tally keeps every increment made before a failure |
| Conversion.Importer.Step | dataturks_to_voc.py:186-189 | one line of the export: the tally gains that item's objects, plus one `files` when its file is written, and the files written are that item's |
| Conversion.Importer.Run | dataturks_to_voc.py:184-189 | the tally after all lines and the files written, in line order; `files` stays present |
| DatasetSplit.SliceBound | dataturks_to_voc.py:257-258 | a bound in [0, n] is kept, one in [-n, 0) counts from the end, one above n is n and one below -n is 0 |
| DatasetSplit.OversizePercent | dataturks_to_voc.py:256-258 | a percentage above one is not refused: two images and 1.5 put both into the test part and none into trainval |
| DatasetSplit.SplitListing | dataturks_to_voc.py:255-258 | the two parts, concatenated, are the listing |
| DatasetSplit.SplitSizes | dataturks_to_voc.py:256-258 | for a percentage in [0, 1] the test part is the first `int(n * p)` images, at most n*p and less than one short of it |
| DatasetSplit.NegativePercent | dataturks_to_voc.py:256-258 | four images and -0.25 put the first three into the test part |
| DatasetSplit.ManifestStops | dataturks_to_voc.py:214-217 | after a failed rename, later members change nothing |
| DatasetSplit.ManifestPrefix | dataturks_to_voc.py:212-218 | a manifest holds the lines of the members handled, in order, and a run stops exactly at the first member whose annotation is missing |
| DatasetSplit.ManifestComplete | dataturks_to_voc.py:212-218 | when every annotation is found, the manifest lists every member |
| DatasetSplit.Manifest | dataturks_to_voc.py:212-218 | the manifest run handles at most the members given; ManifestPrefix and ManifestComplete say what it holds |
| DatasetSplit.WriteManifest | dataturks_to_voc.py:212-218 | the loop's text, renamed files and count of members handled are the manifest run's |
| DatasetSplit.ManifestsCoverListing | dataturks_to_voc.py:255-261 | when every rename succeeds, the trainval and test manifests list their parts in full, and the two parts make up the listing |
| DatasetSplit.NoTestAfterFailure | dataturks_to_voc.py:260-261 | a trainval manifest that stops at a missing annotation leaves no test manifest |
| DatasetSplit.ImageMemberId | dataturks_to_voc.py:218 | the image file `<id>.jpg` is listed as `<id>` |
| DatasetSplit.RenameDropsImageExtension | dataturks_to_voc.py:215-217 | `<dir>/<id>.jpg.xml` is renamed to `<dir>/<id>.xml` when ".jpg" occurs nowhere else in the path |
| DatasetSplit.ManifestReadsBack | dataturks_to_voc.py:218 | read back with `strip().split()`, a manifest gives the listed ids in order |
| Flattener.ClassesDistinct | voc_annotation.py:6 | no class is listed twice |
| Flattener.ClassId | voc_annotation.py:17-19 | a name has an id exactly when it is in the class list (the script passes `classes`), and the id is its position in that list |
| Flattener.Classify | voc_annotation.py:14-22 | an object is dropped exactly when its name is not a class; a kept box carries its class's position |
| Flattener.ClassifyCorners | voc_annotation.py:20-22 | a kept box's corners are `int(float(text))` of the object's corners; a class object fails exactly when one corner text is refused |
| Flattener.Boxes | voc_annotation.py:14-23 | the boxes of an annotation's objects: never more than there are objects |
| Flattener.BoxesFail | voc_annotation.py:14-22 | an annotation yields no boxes exactly when one of its class objects has an unreadable corner |
| Flattener.BoxesAppend | voc_annotation.py:14-23 | boxes keep document order across consecutive runs of objects |
| Flattener.BoxesBounded | voc_annotation.py:14-23 | there are never more groups than objects, and every class id is below the number of classes |
| Flattener.NoKnownClassLine | voc_annotation.py:31-34 | an image without class objects gets a line holding its path alone |
| Flattener.ConvertAnnotation | voc_annotation.py:9-23 | the object loop's text is the image's groups, or None where the source raises |
| Flattener.BoxRoundTrip | voc_annotation.py:23 | a group `xmin,ymin,xmax,ymax,id` reads back as its box |
| Flattener.LineRoundTrip | voc_annotation.py:31-34 | a line reads back, split on whitespace, as the image path and the boxes in order |
| Flattener.ImageLineReadsBack | voc_annotation.py:31-34 | an image's line reads back as its path and the boxes of its class objects |
| Flattener.ImageLine | voc_annotation.py:31-34 | an image's line exists exactly when its groups do, starts with the image path and ends with a newline |
| Flattener.SetTextFails | voc_annotation.py:29-35 | a set's text (`Flattener.SetText`) fails exactly when the line of one of its images fails |
| Flattener.SetTextAppend | voc_annotation.py:31-34 | the text of two runs of ids is the text of the first followed by that of the second |
| Flattener.SetTextLines | voc_annotation.py:29-35 | split on newlines, a set's text is one line per listed image, in manifest order, then the empty piece after the last newline |
| Flattener.WriteSet | voc_annotation.py:29-35 | the loop over a manifest's ids produces the set's text, or None where the source raises |
| Flattener.Run | voc_annotation.py:28-35 | the loop over the (year, set) pairs produces every output file in order, or None |
| Flattener.FlattenSetsNames | voc_annotation.py:28-30 | one output per pair, named `<year>_<set>.txt`, holding that set's text |
| Flattener.ScriptOutputs | voc_annotation.py:4-35 | the script's own run over its classes and sets writes `2007_trainval.txt`, then `2007_test.txt`, each with its set's text |
| Interchange.CornerReadsBack | voc_annotation.py:21-22 | a corner the importer writes reads back as its value truncated toward zero |
| Interchange.ImportedObject | voc_annotation.py:14-22 | the flattener keeps an imported object exactly when its name is a class, with the importer's corners truncated |
| Interchange.ImportedBoxes | voc_annotation.py:14-23 | the boxes of an imported annotation are the expected boxes of its detections, in order |
| Interchange.RenamedAnnotationIsOpened | voc_annotation.py:10 | the renamed annotation of `<id>.jpg` is the file the flattener opens for `<id>` |
| Interchange.ManifestIsRead | voc_annotation.py:29 | the manifest the importer writes for a set is the one the flattener reads for it |
| Interchange.ManifestListsImageIds | voc_annotation.py:29 | a manifest of `<id>.jpg` files is read by the flattener as those ids, in order |

## Left out

- Downloading an image (`requests`), the local-cache check and opening it with PIL are one parameter, `fetch`. It gives the image's size, or None where any of these raises.
- The image cache is keyed by the URL's last segment alone. Two URLs with the same last segment therefore share one cached image, and their items write the same `.xml` path, the second file replacing the first. The model returns both files in order; it has no file system in which one overwrites the other.
- JSON parsing: a line is either `Malformed` or an already parsed record. Values of the wrong JSON type (a number as a label, a non-list annotation) are not modelled, beyond missing keys and blank entries.
- The importer writes labels, paths and folder names into the XML without escaping. A value holding `&` or `<` makes a file that an XML parser refuses, so the flattener raises on it. The round trips (VocXml.ObjectRoundTrip, VocXml.DocumentRoundTrip, Conversion.WrittenFileAgrees) are stated only for values free of both characters; the model's own reader would accept a bare `&`.
- The flattener opens annotations in the locale's default encoding, while the importer writes UTF-8. The model has one character type, so it assumes a UTF-8 locale, the only one under which the Cyrillic class names match.
- Numeric.ParseFloat reads ASCII decimal notation only. Texts Python's `float()` also accepts, namely `_` between digits, non-ASCII decimal digits, and infinity or NaN, are None here.
- XML parsing with ElementTree: the flattener's annotations are a map from path to the objects they hold, in document order. An object lacking `difficult`, `name` or `bndbox` is not modelled.
- The flattener's unused `difficult` lookup is not modelled.
- Floating point is `real`. `str(float)` of an unrounded corner is a parameter, `show`. IEEE rounding and overflow are not modelled.
- The insertion order of the `OrderedDict` tally is not modelled: the tally is a map.
- Logging, the progress message every ten items and the final summary are not modelled. So are the `print` of the test percentage and argument parsing.
- The existence checks at the start of `main` and its refusal of an empty export file are not modelled.
- Creating the VOC directories and the four empty image-set files (dataturks_to_voc.py:232-237 and 247-253) is not modelled.
- The directory listing's order is the operating system's. Here it is a parameter.
- The file system is a set of annotation paths (for renames) or maps of file texts (for the flattener). Writing a file is returning its path and text.
- Flattener.Run: a flattener run that raises yields None. What the source had already written is not modelled: the complete files of earlier sets, the lines of earlier images, and the failing image's path with the groups written before its unreadable corner.
- DatasetSplit.RenameDropsImageExtension: stated only for paths where ".jpg" occurs nowhere else. Elsewhere `Manifest` still deletes every ".jpg" of the whole path, as the source does.
