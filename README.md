# Small-bounding-box crop for Pascal VOC annotations, in Dafny

This project models the core of a small toolkit for object-detection
datasets annotated in the Pascal VOC XML format.

The main operation is `drop_crop_small_bbox`. For each image:

- It splits the annotated boxes by area into *large* boxes (area above a
  threshold) and *small* boxes (area strictly below it).
- It computes an initial crop envelope around the large boxes.
- It keeps the small boxes that are not wholly outside that envelope.
- It widens the envelope for each entry of the kept list, at most one side
  per entry.
- It rewrites the annotation: every object of area at most the threshold
  that was not kept is removed, the canvas becomes the cropped size, and
  every box is shifted by the crop's left and top.

The project also models:

- The annotation helpers that operation uses: box and area getters, lookup
  of objects by box, removal of small objects, shifting after a crop, and
  appending an object.
- The class-name collection.
- The whole-image "every box is small" test.
- The file-identifier rule and the list chunker.

Modules:

- `Wrappers` holds `Result`, which stands for a Python exception that ends
  the operation.
- `Seqs` holds generic sequence functions: an order-preserving `Filter`,
  Python's `list.index` as `IndexOf`, `Min` and `Max`, and `Flatten`.
- `XmlManipulation` models xml_manipulation.py.
  - A parsed annotation file is the class `Annotation`. It holds the canvas
    width and height and the ordered `<object>` elements, each with a name,
    pose, truncated and difficult flags, and a box.
  - The three helpers that edit the tree in place are methods that modify
    the object.
  - The getters are loops proved equal to specification functions
    (`BoxesOf`, `AreasOf`, `Targeted`).
- `Tools` models tools.py: the identifier stem of `get_filelist` and
  `chunk_list`.
- `SmallBbox` models small_bbox.py.
  - Each step of the per-image computation is a method with its loop, proved
    equal to a specification function.
  - `Plan` composes those functions.
  - `DropCropSmallBbox` runs the steps against an `Annotation`.
  - Lemmas state what the crop keeps and removes.
  - Worked examples pin down the quirks of the code as written.

Two behaviours of the code are reproduced exactly rather than idealised:

- **The `area.index` lookup.** The large and small lists are built through
  `area.index(a)`, the first box with that area. A later box with an equal
  area is therefore replaced by its earlier twin.
  - `EqualAreaSmallBoxIsDropped` shows a small box that is removed although
    it lies inside the crop.
  - `EqualAreaLargeBoxNotEnclosed` shows a large box that survives outside
    the crop.
- **The expansion `if/elif` chain.** It moves at most one side per entry of
  `to_keep`, so a retained box can end up partly outside the final envelope
  (`ExpandedMayNotCover`).
- **The two together.** A small box is listed once for itself and once more
  for each later box with the same area (`IndexListExact`). A box listed k
  times is folded into the envelope k times and can move up to k sides.
  `TwinMovesTwoSides` shows a box listed twice that moves the left side and
  then the top, while its inside twin is removed.

Both are how the program behaves. They are not treated as defects of the
model.

## Model

| member | source | states |
|---|---|---|
| XmlManipulation.Annotation.GetBoxes | xml_manipulation.py:6-14 | one box per object, same length and document order: `result[i]` is object i's box, so the result is `BoxesOf(objects)` |
| XmlManipulation.Annotation.GetAreas | xml_manipulation.py:17-26 | one area per object, in order, `areas[i] == (ymax-ymin)*(xmax-xmin)` of object i, so the result is `AreasOf(BoxesOf(objects))` |
| XmlManipulation.Annotation.GetTargetedObjects | xml_manipulation.py:39-51 | the result is the order-preserving filter of the objects by "box is in the wanted list"; an object is in it iff it is an object whose box is wanted |
| XmlManipulation.TargetedAfterAdd | xml_manipulation.py:43-50 | after appending an object, the lookup returns the old matches followed by the new object exactly when its box is wanted |
| XmlManipulation.Annotation.DropSmallBoxes | xml_manipulation.py:115-143 | with both arguments given, the objects left are exactly those not (area <= max_area and box not in the keep list), in their original order; the returned list is the boxes of the objects left; the canvas is unchanged |
| XmlManipulation.SurvivorsSnoc | xml_manipulation.py:116-139 | the removal decision is made object by object: one more object adds itself to the survivors iff it fails the removal test |
| XmlManipulation.Annotation.UpdateCrop | xml_manipulation.py:146-173 | the canvas becomes `w` x `h` and the objects become their shifted copies (`ShiftAll`) |
| XmlManipulation.ShiftAll | xml_manipulation.py:160-172 | shifting keeps the object count, order, names, pose and flags, and each box's width, height and area |
| XmlManipulation.ShiftAllInverse | xml_manipulation.py:160-172 | shifting by (dx, dy) and then by (-dx, -dy) restores the objects exactly |
| XmlManipulation.Annotation.AddObject | xml_manipulation.py:74-98 | exactly one object is appended after the existing ones, with the given name and box, pose "Unspecified", truncated and difficult "0"; the canvas is unchanged |
| XmlManipulation.GetClassList | xml_manipulation.py:62-71 | the class list equals the deduplication of all object names, file by file in folder order |
| XmlManipulation.Dedup | xml_manipulation.py:67-70 | a name is in the class list iff some object carries it |
| XmlManipulation.DedupDistinct | xml_manipulation.py:69-70 | the class list holds no name twice |
| XmlManipulation.DedupFirstAppearance | xml_manipulation.py:63-70 | the class list is ordered by the position of each name's first occurrence |
| XmlManipulation.AllNamesMembers | xml_manipulation.py:64-68 | a name occurs among the scanned names iff some object of some file has that name |
| Seqs.IndexOf | small_bbox.py:76 | `list.index`: the returned position holds the value and no earlier position does |
| Seqs.Min | small_bbox.py:85-86 | `min` of a non-empty list is an element and at most every element |
| Seqs.Max | small_bbox.py:85-86 | `max` of a non-empty list is an element and at least every element |
| Seqs.Filter | xml_manipulation.py:44-50 | a filter is no longer than its input and holds exactly the input elements that pass the test |
| Seqs.FilterConcat | xml_manipulation.py:116-139 | filtering distributes over concatenation: the objects left keep their relative order, part by part |
| Tools.Stem | tools.py:8 | an identifier has no '.', is a prefix of the file name, and is followed in the name by '.' when shorter than it |
| Tools.FileList | tools.py:7-9 | one identifier per folder entry, in order, each the entry's name up to its first '.' |
| Tools.ChunkList | tools.py:39-42 | size 0 is an error (`range` step 0); a negative size yields no chunks; for a positive size the chunks concatenate to the input, there are ceil(len/size) of them, all but the last have exactly `size` items, and the last has between 1 and `size` |
| Tools.CeilingDiv | tools.py:40 | a chunk count k with (k-1)*size < n <= k*size is ceil(n/size) |
| SmallBbox.AllSmallIff | small_bbox.py:30-31 | for a file with objects, the largest area is at most the threshold iff every object's area is |
| SmallBbox.SmallImageIdsMembers | small_bbox.py:26-32 | an identifier is listed iff some file with that identifier has all its object areas at most the threshold |
| SmallBbox.GetSmallBboxList | small_bbox.py:9-33 | fails (the `ValueError` of `max([])`) iff some file has no object; otherwise returns the identifiers of the all-small files in folder order |
| SmallBbox.IndexList | small_bbox.py:76 | each listed index is in range, has an in-class area, and is the first position of that area |
| SmallBbox.IndexListExact | small_bbox.py:76 | the index list has one entry per in-class area among the first n, in order, and entry j is the first position of the j-th in-class area, so an area shared by k in-class boxes contributes its first position k times |
| SmallBbox.IndexListComplete | small_bbox.py:89 | every in-class area contributes its first position to the index list |
| SmallBbox.ClassBoxesMembers | small_bbox.py:76-92 | a box is in the large (small) list iff it is the first box with its area and that area is above (strictly below) the threshold |
| SmallBbox.ClassBoxesAreas | small_bbox.py:89-92 | every box in a list is an annotated box whose area is in the list's class |
| SmallBbox.XValuesMembers | small_bbox.py:77-81 | `x_val` holds exactly the xmin and xmax values of the large boxes |
| SmallBbox.YValuesMembers | small_bbox.py:77-82 | `y_val` holds exactly the ymin and ymax values of the large boxes |
| SmallBbox.BoundingIsTight | small_bbox.py:85-86 | the initial envelope encloses every coordinate of every large box, has left <= right and top <= bottom, and each side is some large box's coordinate |
| SmallBbox.FindInitialEnvelope | small_bbox.py:72-86 | the loop over the large index list and the min/max give `InitialEnvelope`, which fails with `NoLargeObjects` when there is no large box |
| SmallBbox.PlanDefinedIffLargeBox | small_bbox.py:76-86 | the crop is defined iff some box has area above the threshold |
| SmallBbox.PlanInitialEnclosesLarge | small_bbox.py:76-86 | the initial envelope encloses every large box that is the first with its area |
| SmallBbox.EqualAreaLargeBoxNotEnclosed | small_bbox.py:76 | two large boxes of equal area: only the first shapes the envelope, and the second lies outside it |
| SmallBbox.CollectSmallBoxes | small_bbox.py:89-92 | the loop gives the small list: each small box replaced by the first box with its area |
| SmallBbox.TwinMovesTwoSides | small_bbox.py:89-122 | threshold 400 with [0,0,100,100], [-5,-5,5,5] and [50,50,60,60]: `to_keep` is [-5,-5,5,5] twice, the envelope grows from [0,0,100,100] to [-5,-5,100,100] (two sides), and the inside twin [50,50,60,60] is removed |
| SmallBbox.EqualAreaSmallBoxIsDropped | small_bbox.py:89 | a small box inside the crop whose area equals an earlier far-away small box's is never considered, so it is removed |
| SmallBbox.SelectToKeep | small_bbox.py:100-110 | `to_keep` is the order-preserving filter of the small list by "not wholly outside the initial envelope" |
| SmallBbox.WhollyOutsideIffDisjoint | small_bbox.py:104-109 | for a well-formed box the drop test is "disjoint from the envelope": touching or overlapping boxes are kept |
| SmallBbox.ExpandStep | small_bbox.py:113-122 | one pass of the chain never shrinks the envelope; it moves at most one side, to the box's coordinate, in the priority left, top, right, bottom; it changes nothing iff the box is already inside |
| SmallBbox.AdjustEnvelope | small_bbox.py:113-122 | the loop gives `Expanded(initial, to_keep)`, which contains the initial envelope |
| SmallBbox.ExpandedGrows | small_bbox.py:113-122 | folding in any list of boxes never shrinks the envelope |
| SmallBbox.ExpandedCoveredUnchanged | small_bbox.py:113-122 | boxes already inside the envelope leave it unchanged |
| SmallBbox.ExpandedMayNotCover | small_bbox.py:113-122 | [45,45,60,60] against [10,10,50,50] moves only the right side, to 60, and is not inside the result |
| SmallBbox.PlanFinalContainsInitial | small_bbox.py:113-122 | the final envelope contains the initial one |
| SmallBbox.PlanKeepMembers | small_bbox.py:89-110 | a box is kept iff it is the first box with its area, that area is below the threshold, and it is not wholly outside the initial envelope |
| SmallBbox.DropCropSmallBbox | small_bbox.py:62-143 | fails with no large box and leaves the annotation unchanged; otherwise returns the plan, sets the canvas to the cropped size, and leaves exactly the survivors, shifted by the final left and top |
| SmallBbox.SurvivorsOfPlan | small_bbox.py:138-139 | the annotation keeps exactly the objects that are large or whose box is kept, so an object of area equal to the threshold is always removed and no small survivor is wholly outside the initial envelope |
| SmallBbox.FirstSmallTouchingSurvives | small_bbox.py:100-110 | a small object that is first with its area and not wholly outside the initial envelope survives |
| SmallBbox.WorkedExample | small_bbox.py:72-122 | threshold 400 with [10,10,50,50], [45,45,60,60] and [200,200,210,210]: initial [10,10,50,50], final [10,10,60,50], only [45,45,60,60] kept |
| SmallBbox.WorkedExampleOutput | small_bbox.py:138-139 | the same example rewrites the annotation to [0,0,40,40] and [35,35,50,50] |
| XmlManipulation.Area | xml_manipulation.py:121 | the area test of the removal loop, (ymax-ymin)*(xmax-xmin) as in `get_xml_bbox_area`; `Annotation.GetAreas` equals `AreasOf` of it, and `ShiftAll` preserves it |
| XmlManipulation.Targeted | xml_manipulation.py:43-51 | the objects whose box is wanted, in document order: an object is in it iff it is an object with a wanted box; `Annotation.GetTargetedObjects` equals it and `TargetedAfterAdd` relates it to an append |
| XmlManipulation.Dropped | xml_manipulation.py:125-137 | the removal test with both arguments given: area at most `max_area` and box not in the keep list; used by `Survivors` |
| XmlManipulation.Survivors | xml_manipulation.py:116-139 | the objects left by the removal loop: never longer than the input, and an object is in it iff it is an object that fails the removal test; `SurvivorsSnoc`, `FilterConcat` and `Annotation.DropSmallBoxes` describe it further |
| SmallBbox.AllSmall | small_bbox.py:30-31 | `max(areas) <= area_thresh` for a file with objects; `AllSmallIff` states it as "every area is at most the threshold" |
| SmallBbox.SmallImageIds | small_bbox.py:26-32 | the identifiers of the all-small files in folder order; `SmallImageIdsMembers` gives its members and `GetSmallBboxList` returns it |
| SmallBbox.Bounding | small_bbox.py:77-86 | min and max of `x_val` and `y_val` for a non-empty large list; `BoundingIsTight` states it is the tightest envelope around the large boxes |
| SmallBbox.InitialEnvelope | small_bbox.py:76-86 | the initial envelope, or `NoLargeObjects` when no area is above the threshold; `FindInitialEnvelope` equals it, `PlanDefinedIffLargeBox` and `PlanInitialEnclosesLarge` describe it |
| SmallBbox.WhollyOutside | small_bbox.py:104-109 | the drop test exactly as written, both x or both y coordinates beyond one side; `WhollyOutsideIffDisjoint` states it is disjointness for well-formed boxes |
| SmallBbox.Retained | small_bbox.py:100-110 | `to_keep`: never longer than the small list, and a box is in it iff it is a small-list box not wholly outside the envelope; `SelectToKeep` equals it and `PlanKeepMembers` describes it |
| SmallBbox.Expanded | small_bbox.py:113-122 | the envelope after folding in each entry of `to_keep` with `ExpandStep`; `ExpandedGrows`, `ExpandedCoveredUnchanged`, `ExpandedMayNotCover` and `TwinMovesTwoSides` describe it, and `AdjustEnvelope` equals it |
| SmallBbox.Plan | small_bbox.py:72-122 | the initial envelope, the final envelope and `to_keep` of one image, or `NoLargeObjects`; `DropCropSmallBbox` returns it and the `Plan…` lemmas and `SurvivorsOfPlan` describe it |
| SmallBbox.CroppedObjects | small_bbox.py:138-139 | the rewritten objects: the survivors of the removal shifted by the final left and top; `DropCropSmallBbox` leaves them in the annotation, and `SurvivorsOfPlan` and `WorkedExampleOutput` describe them |
| XmlManipulation.NewObject | xml_manipulation.py:79-96 | the `<object>` element `add_xml_object` builds: the given name and box, pose "Unspecified", truncated and difficult "0"; `Annotation.AddObject` appends it and `TargetedAfterAdd` relates the append to the lookup |
| XmlManipulation.AllNames | xml_manipulation.py:64-68 | the names of every object of every file, file by file in folder order and each file in document order; `AllNamesMembers` gives its members and `GetClassList` deduplicates it |
| SmallBbox.InClass | small_bbox.py:76-89 | the two comprehension conditions (line 76 and line 89): large is an area strictly above the threshold, small an area strictly below it, so an area equal to the threshold is in neither class |
| SmallBbox.ClassBoxes | small_bbox.py:76-92 | the large list (lines 76-82) and the small list (lines 89-92): the box at `area.index(a)` for each in-class area `a`, in order; `ClassBoxesMembers`, `ClassBoxesAreas` and `IndexListExact` describe it, and `FindInitialEnvelope` and `CollectSmallBoxes` compute it |
| SmallBbox.XValues | small_bbox.py:77-82 | `x_val`: xmin then xmax of each large box in turn, twice as long as the list; `XValuesMembers` gives its members |
| SmallBbox.YValues | small_bbox.py:77-82 | `y_val`: ymin then ymax of each large box in turn, twice as long as the list; `YValuesMembers` gives its members |

## Left out

- File-system and image I/O are not modelled. This covers `Path.iterdir`, `ET.parse`, `tree.write`, `os.makedirs`, and the `Image.open`, `crop` and `save` calls of the image library.
  - Folder contents are inputs: entry names for `FileList`, and object lists per file for the scans.
  - The cropped image size `w`, `h` is a parameter of `DropCropSmallBbox`.
- The text-to-int parsing of XML fields is not modelled, and neither is writing coordinates back as text. Coordinates are integers.
- `get_xml_width` and `get_xml_height` are not modelled: they read the canvas size, which is the `width`/`height` fields of `Annotation`.
- `get_imgsize`, `img_array` and `imgfolder_array` (image loading, padding, greyscaling, array stacking) are not part of this model.
- `tqdm` progress, `print` logging and the command-line parsing are not part of this model.
- `DropCropSmallBbox` models the body of the per-file loop, one annotation at a time. The loop over the folder is left out. In the code, the `ValueError` of an image without large boxes ends the whole batch.
- `XmlManipulation.Annotation.DropSmallBoxes` requires both `max_area` and `list_to_keep`. A `None` argument makes the comparison or the membership test raise `TypeError` before the `try`, so the `None` branches and the `except` handler are not modelled.
- `XmlManipulation.Annotation.DropSmallBoxes` and `XmlManipulation.Annotation.UpdateCrop` model the tree as a sequence value held by the annotation. Element identity and aliasing of `<object>` nodes are not captured. The text fields are rewritten one coordinate at a time, but only the result per object is stated.
- `Tools.ChunkList` returns all chunks at once; the generator's laziness is not modelled.
- small_bbox.py line 5 imports `get_xml_bbox_area` from tools.py, which does not define it, so the module as written fails to import. The model uses the definition in xml_manipulation.py, which the wildcard import on line 4 also brings in.
