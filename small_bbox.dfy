/**
 * The crop-and-reconcile computation of small_bbox.py, for one annotation
 * file, and the whole-image test behind `get_small_bbox_list`.
 *
 * Boxes with area above the threshold are "large", those strictly below it
 * "small"; both lists are built through `area.index(a)`, which yields the
 * FIRST box with area `a`, so a later box with an equal area is replaced by
 * the earlier one. The initial crop envelope is the min/max of the large
 * boxes' coordinates; a small box is retained unless it lies wholly to one
 * side of that initial envelope; each entry of `to_keep` then moves at most
 * one side of the envelope (first matching branch of left, top, right,
 * bottom), so a box listed several times through equal-area twins can move
 * several sides.
 * Finally the annotation loses every object of area at most the threshold
 * that was not retained, its canvas becomes the cropped size and every box is
 * shifted by the final left and top.
 */
module SmallBbox {
  import opened Wrappers
  import opened Seqs
  import opened XmlManipulation

  // ---------------------------------------------------------------------
  // The whole-image test of get_small_bbox_list
  // ---------------------------------------------------------------------

  /** One annotation file: its identifier and its parsed objects. */
  datatype Record = Record(id: string, objects: seq<XmlObject>)

  /** `max(areas) <= area_thresh`, for a file with at least one object. */
  predicate AllSmall(objs: seq<XmlObject>, thresh: int)
    requires |objs| > 0
  {
    Max(AreasOf(BoxesOf(objs))) <= thresh
  }

  /** The largest area is at most the threshold iff every object's area is. */
  lemma AllSmallIff(objs: seq<XmlObject>, thresh: int)
    requires |objs| > 0
    ensures AllSmall(objs, thresh) <==> forall o :: o in objs ==> Area(o.box) <= thresh
  {
    var areas := AreasOf(BoxesOf(objs));
    forall o | o in objs
      ensures Area(o.box) in areas
    {
      var i :| 0 <= i < |objs| && objs[i] == o;
      assert areas[i] == Area(o.box);
    }
    var i :| 0 <= i < |areas| && areas[i] == Max(areas);
    assert objs[i] in objs && Area(objs[i].box) == Max(areas);
  }

  function SmallImageIds(items: seq<Record>, thresh: int): seq<string>
    requires forall r :: r in items ==> |r.objects| > 0
  {
    if items == [] then []
    else
      var init, last := items[..|items| - 1], items[|items| - 1];
      assert forall r :: r in init ==> r in items;
      SmallImageIds(init, thresh) + (if AllSmall(last.objects, thresh) then [last.id] else [])
  }

  /** An identifier is listed iff some file with it has every object at or below the threshold. */
  lemma {:induction false} SmallImageIdsMembers(items: seq<Record>, thresh: int, id: string)
    requires forall r :: r in items ==> |r.objects| > 0
    ensures id in SmallImageIds(items, thresh) <==>
      exists r :: r in items && r.id == id && forall o :: o in r.objects ==> Area(o.box) <= thresh
  {
    if items != [] {
      var init, last := items[..|items| - 1], items[|items| - 1];
      assert items == init + [last];
      SmallImageIdsMembers(init, thresh, id);
      AllSmallIff(last.objects, thresh);
    }
  }

  /** `max` of the areas of a file without objects raises ValueError, ending the scan. */
  datatype ListError = EmptyAnnotation

  /**
   * `get_small_bbox_list` over the parsed files of the annotation folder, in
   * folder order: fails iff some file has no object, otherwise lists the
   * files whose largest area is at most the threshold.
   */
  method GetSmallBboxList(items: seq<Record>, thresh: int) returns (r: Result<seq<string>, ListError>)
    ensures r.Err? <==> exists rec :: rec in items && rec.objects == []
    ensures r.Ok? ==> (forall rec :: rec in items ==> |rec.objects| > 0) && r.value == SmallImageIds(items, thresh)
  {
    var imglist := [];
    for k := 0 to |items|
      invariant forall rec :: rec in items[..k] ==> |rec.objects| > 0
      invariant imglist == SmallImageIds(items[..k], thresh)
    {
      var item := items[k];
      if item.objects == [] {
        return Err(EmptyAnnotation);
      }
      var areas := AreasOf(BoxesOf(item.objects));
      assert items[..k + 1] == items[..k] + [item];
      assert items[..k + 1][..k] == items[..k];
      if Max(areas) <= thresh {
        imglist := imglist + [item.id];
      }
    }
    assert items[..|items|] == items;
    return Ok(imglist);
  }

  // ---------------------------------------------------------------------
  // Area classification through area.index
  // ---------------------------------------------------------------------

  datatype SizeClass = Large | Small

  /** Large: area above the threshold; small: area strictly below it. */
  predicate InClass(a: int, thresh: int, c: SizeClass)
  {
    match c
    case Large => a > thresh
    case Small => a < thresh
  }

  /**
   * `[area.index(a) for a in area[..n] if a in class]`: every entry is the
   * first position of an in-class area.
   */
  function IndexList(area: seq<int>, n: nat, thresh: int, c: SizeClass): (idx: seq<nat>)
    requires n <= |area|
    ensures |idx| <= n
    ensures forall j :: 0 <= j < |idx| ==>
      idx[j] < |area| && InClass(area[idx[j]], thresh, c) && IndexOf(area, area[idx[j]]) == idx[j]
  {
    if n == 0 then []
    else
      IndexList(area, n - 1, thresh, c)
        + (if InClass(area[n - 1], thresh, c) then [IndexOf(area, area[n - 1])] else [])
  }

  /** Every in-class area among the first n contributes its first position. */
  lemma {:induction false} IndexListComplete(area: seq<int>, n: nat, thresh: int, c: SizeClass)
    requires n <= |area|
    ensures forall i :: 0 <= i < n && InClass(area[i], thresh, c) ==>
      IndexOf(area, area[i]) in IndexList(area, n, thresh, c)
  {
    if n > 0 {
      IndexListComplete(area, n - 1, thresh, c);
    }
  }

  /** The in-class areas among the first n, in order. */
  function InClassAreas(area: seq<int>, n: nat, thresh: int, c: SizeClass): seq<int>
    requires n <= |area|
  {
    Filter(area[..n], (a: int) => InClass(a, thresh, c))
  }

  /**
   * The index list exactly: one entry per in-class area, in order, each the
   * first position of that area. An area shared by k in-class boxes thus
   * contributes the first of them k times.
   */
  lemma {:induction false} IndexListExact(area: seq<int>, n: nat, thresh: int, c: SizeClass)
    requires n <= |area|
    ensures var f := InClassAreas(area, n, thresh, c);
      |IndexList(area, n, thresh, c)| == |f| &&
      forall j :: 0 <= j < |f| ==> f[j] in area && IndexList(area, n, thresh, c)[j] == IndexOf(area, f[j])
  {
    if n > 0 {
      var prev, f := InClassAreas(area, n - 1, thresh, c), InClassAreas(area, n, thresh, c);
      var idx := IndexList(area, n, thresh, c);
      IndexListExact(area, n - 1, thresh, c);
      assert f == prev + (if InClass(area[n - 1], thresh, c) then [area[n - 1]] else []) by {
        assert area[..n] == area[..n - 1] + [area[n - 1]];
        FilterSnoc(area[..n - 1], area[n - 1], (a: int) => InClass(a, thresh, c));
      }
      forall j | 0 <= j < |f|
        ensures f[j] in area && idx[j] == IndexOf(area, f[j])
      {
        if j < |prev| {
          assert f[j] == prev[j];
        } else {
          assert f[j] == area[n - 1];
        }
      }
    }
  }

  /** `[bboxes[k] for k in idx]`. */
  function Pick(bs: seq<Box>, idx: seq<nat>): (r: seq<Box>)
    requires forall j :: 0 <= j < |idx| ==> idx[j] < |bs|
    ensures |r| == |idx|
  {
    if idx == [] then []
    else Pick(bs, idx[..|idx| - 1]) + [bs[idx[|idx| - 1]]]
  }

  lemma PickSnoc(bs: seq<Box>, idx: seq<nat>, k: nat)
    requires forall j :: 0 <= j < |idx| ==> idx[j] < |bs|
    requires k < |bs|
    ensures Pick(bs, idx + [k]) == Pick(bs, idx) + [bs[k]]
  {
    assert (idx + [k])[..|idx + [k]| - 1] == idx;
  }

  lemma {:induction false} PickMembers(bs: seq<Box>, idx: seq<nat>, b: Box)
    requires forall j :: 0 <= j < |idx| ==> idx[j] < |bs|
    ensures b in Pick(bs, idx) <==> exists j :: 0 <= j < |idx| && bs[idx[j]] == b
  {
    if idx != [] {
      var init, last := idx[..|idx| - 1], idx[|idx| - 1];
      assert idx == init + [last];
      PickMembers(bs, init, b);
    }
  }

  /** The large (or small) box list of drop_crop_small_bbox. */
  function ClassBoxes(bs: seq<Box>, thresh: int, c: SizeClass): seq<Box>
  {
    Pick(bs, IndexList(AreasOf(bs), |bs|, thresh, c))
  }

  /**
   * A box is in the large (small) list iff it is the FIRST box with its
   * area and that area is large (small): a later box with an equal area
   * never appears, its earlier twin stands in for it.
   */
  lemma ClassBoxesMembers(bs: seq<Box>, thresh: int, c: SizeClass, b: Box)
    ensures b in ClassBoxes(bs, thresh, c) <==>
      exists i :: 0 <= i < |bs| && bs[i] == b && InClass(AreasOf(bs)[i], thresh, c)
               && IndexOf(AreasOf(bs), AreasOf(bs)[i]) == i
  {
    var area := AreasOf(bs);
    var idx := IndexList(area, |bs|, thresh, c);
    PickMembers(bs, idx, b);
    IndexListComplete(area, |bs|, thresh, c);
  }

  /** Every box of the list has the class's area. */
  lemma ClassBoxesAreas(bs: seq<Box>, thresh: int, c: SizeClass)
    ensures forall b :: b in ClassBoxes(bs, thresh, c) ==> b in bs && InClass(Area(b), thresh, c)
  {
    forall b | b in ClassBoxes(bs, thresh, c)
      ensures b in bs && InClass(Area(b), thresh, c)
    {
      ClassBoxesMembers(bs, thresh, c, b);
    }
  }

  // ---------------------------------------------------------------------
  // The initial envelope
  // ---------------------------------------------------------------------

  /** A crop region `(left, top, right, bottom)`. */
  datatype Envelope = Envelope(left: int, top: int, right: int, bottom: int)

  /** `min`/`max` of an empty list: no box has an area above the threshold. */
  datatype CropError = NoLargeObjects

  /** `x_val` as drop_crop_small_bbox builds it: xmin, xmax of each box in turn. */
  function XValues(bs: seq<Box>): (xs: seq<int>)
    ensures |xs| == 2 * |bs|
  {
    if bs == [] then [] else XValues(bs[..|bs| - 1]) + [bs[|bs| - 1].xmin, bs[|bs| - 1].xmax]
  }

  /** `y_val`: ymin, ymax of each box in turn. */
  function YValues(bs: seq<Box>): (ys: seq<int>)
    ensures |ys| == 2 * |bs|
  {
    if bs == [] then [] else YValues(bs[..|bs| - 1]) + [bs[|bs| - 1].ymin, bs[|bs| - 1].ymax]
  }

  lemma {:induction false} XValuesMembers(bs: seq<Box>, x: int)
    ensures x in XValues(bs) <==> exists b :: b in bs && (x == b.xmin || x == b.xmax)
  {
    if bs != [] {
      var init, last := bs[..|bs| - 1], bs[|bs| - 1];
      assert bs == init + [last];
      XValuesMembers(init, x);
    }
  }

  lemma {:induction false} YValuesMembers(bs: seq<Box>, y: int)
    ensures y in YValues(bs) <==> exists b :: b in bs && (y == b.ymin || y == b.ymax)
  {
    if bs != [] {
      var init, last := bs[..|bs| - 1], bs[|bs| - 1];
      assert bs == init + [last];
      YValuesMembers(init, y);
    }
  }

  function Bounding(large: seq<Box>): Envelope
    requires |large| > 0
  {
    Envelope(Min(XValues(large)), Min(YValues(large)), Max(XValues(large)), Max(YValues(large)))
  }

  /** Every coordinate of every box lies within the envelope. */
  predicate Encloses(e: Envelope, b: Box)
  {
    e.left <= b.xmin && e.left <= b.xmax && b.xmin <= e.right && b.xmax <= e.right &&
    e.top <= b.ymin && e.top <= b.ymax && b.ymin <= e.bottom && b.ymax <= e.bottom
  }

  /**
   * The initial envelope is the tightest one around the large boxes: it
   * encloses every coordinate of each, and each of its sides is some large
   * box's coordinate.
   */
  lemma BoundingIsTight(large: seq<Box>)
    requires |large| > 0
    ensures var e := Bounding(large);
      e.left <= e.right && e.top <= e.bottom &&
      (forall b :: b in large ==> Encloses(e, b)) &&
      (exists b :: b in large && (e.left == b.xmin || e.left == b.xmax)) &&
      (exists b :: b in large && (e.right == b.xmin || e.right == b.xmax)) &&
      (exists b :: b in large && (e.top == b.ymin || e.top == b.ymax)) &&
      (exists b :: b in large && (e.bottom == b.ymin || e.bottom == b.ymax))
  {
    var e := Bounding(large);
    var xs, ys := XValues(large), YValues(large);
    forall b | b in large
      ensures Encloses(e, b)
    {
      XValuesMembers(large, b.xmin);
      XValuesMembers(large, b.xmax);
      YValuesMembers(large, b.ymin);
      YValuesMembers(large, b.ymax);
    }
    XValuesMembers(large, e.left);
    XValuesMembers(large, e.right);
    YValuesMembers(large, e.top);
    YValuesMembers(large, e.bottom);
  }

  function InitialEnvelope(bs: seq<Box>, thresh: int): Result<Envelope, CropError>
  {
    var large := ClassBoxes(bs, thresh, Large);
    if large == [] then Err(NoLargeObjects) else Ok(Bounding(large))
  }

  // ---------------------------------------------------------------------
  // Retention of small boxes
  // ---------------------------------------------------------------------

  /** The drop test of drop_crop_small_bbox, as written: both x or both y coordinates beyond one side. */
  predicate WhollyOutside(b: Box, e: Envelope)
  {
    (b.xmin < e.left && b.xmax < e.left) ||
    (b.xmin > e.right && b.xmax > e.right) ||
    (b.ymin < e.top && b.ymax < e.top) ||
    (b.ymin > e.bottom && b.ymax > e.bottom)
  }

  /** `to_keep`: the small boxes not wholly outside the envelope, in order. */
  function Retained(small: seq<Box>, e: Envelope): (r: seq<Box>)
    ensures |r| <= |small|
    ensures forall b :: b in r <==> b in small && !WhollyOutside(b, e)
  {
    Filter(small, (b: Box) => !WhollyOutside(b, e))
  }

  /**
   * For a box with xmin <= xmax and ymin <= ymax the drop test is "disjoint
   * from the envelope": boxes that overlap or only touch it are retained,
   * and so is a box equal to the envelope.
   */
  lemma WhollyOutsideIffDisjoint(b: Box, e: Envelope)
    requires b.xmin <= b.xmax && b.ymin <= b.ymax
    ensures WhollyOutside(b, e) <==>
      b.xmax < e.left || b.xmin > e.right || b.ymax < e.top || b.ymin > e.bottom
    ensures e.left <= e.right && e.top <= e.bottom ==>
      !WhollyOutside(Box(e.left, e.top, e.right, e.bottom), e)
  {
  }

  // ---------------------------------------------------------------------
  // Expansion of the envelope
  // ---------------------------------------------------------------------

  /** The box lies inside the envelope: none of the four expansion branches fires. */
  predicate Covers(e: Envelope, b: Box)
  {
    e.left <= b.xmin && e.top <= b.ymin && b.xmax <= e.right && b.ymax <= e.bottom
  }

  predicate Contains(outer: Envelope, inner: Envelope)
  {
    outer.left <= inner.left && outer.top <= inner.top &&
    inner.right <= outer.right && inner.bottom <= outer.bottom
  }

  function SidesChanged(a: Envelope, b: Envelope): nat
  {
    (if a.left != b.left then 1 else 0) + (if a.top != b.top then 1 else 0) +
    (if a.right != b.right then 1 else 0) + (if a.bottom != b.bottom then 1 else 0)
  }

  /**
   * One pass of the `if/elif` chain for one retained box: it never shrinks
   * the envelope, moves at most one side (to the box's coordinate) with
   * priority left, top, right, bottom, and changes something iff the box is
   * not already covered.
   */
  function ExpandStep(e: Envelope, b: Box): (r: Envelope)
    ensures Contains(r, e)
    ensures SidesChanged(e, r) <= 1
    ensures r == e <==> Covers(e, b)
    ensures b.xmin < e.left ==> r == e.(left := b.xmin)
    ensures r.top != e.top ==> e.left <= b.xmin
    ensures r.right != e.right ==> e.left <= b.xmin && e.top <= b.ymin
    ensures r.bottom != e.bottom ==> e.left <= b.xmin && e.top <= b.ymin && b.xmax <= e.right
    ensures (r.left == e.left || r.left == b.xmin) && (r.top == e.top || r.top == b.ymin) &&
            (r.right == e.right || r.right == b.xmax) && (r.bottom == e.bottom || r.bottom == b.ymax)
  {
    if b.xmin < e.left then e.(left := b.xmin)
    else if b.ymin < e.top then e.(top := b.ymin)
    else if b.xmax > e.right then e.(right := b.xmax)
    else if b.ymax > e.bottom then e.(bottom := b.ymax)
    else e
  }

  /** The envelope after folding every retained box in, in order. */
  function Expanded(e: Envelope, keep: seq<Box>): Envelope
  {
    if keep == [] then e else ExpandStep(Expanded(e, keep[..|keep| - 1]), keep[|keep| - 1])
  }

  /** Expansion never shrinks the envelope. */
  lemma {:induction false} ExpandedGrows(e: Envelope, keep: seq<Box>)
    ensures Contains(Expanded(e, keep), e)
  {
    if keep != [] {
      ExpandedGrows(e, keep[..|keep| - 1]);
    }
  }

  /** Retained boxes already inside the envelope leave it unchanged. */
  lemma {:induction false} ExpandedCoveredUnchanged(e: Envelope, keep: seq<Box>)
    requires forall b :: b in keep ==> Covers(e, b)
    ensures Expanded(e, keep) == e
  {
    if keep != [] {
      assert forall b :: b in keep[..|keep| - 1] ==> b in keep;
      ExpandedCoveredUnchanged(e, keep[..|keep| - 1]);
      assert keep[|keep| - 1] in keep;
    }
  }

  /**
   * Because only the first matching side moves, a retained box can end up
   * partly outside the final envelope: [45,45,60,60] against [10,10,50,50]
   * moves only the right side.
   */
  lemma ExpandedMayNotCover()
    ensures Expanded(Envelope(10, 10, 50, 50), [Box(45, 45, 60, 60)]) == Envelope(10, 10, 60, 50)
    ensures !Covers(Envelope(10, 10, 60, 50), Box(45, 45, 60, 60))
  {
    assert [Box(45, 45, 60, 60)][..0] == [];
  }

  // ---------------------------------------------------------------------
  // The whole per-image plan and its effect on the annotation
  // ---------------------------------------------------------------------

  /** The initial envelope, the final one and the `to_keep` list of one image. */
  datatype Crop = Crop(initial: Envelope, final: Envelope, keep: seq<Box>)

  function Plan(bs: seq<Box>, thresh: int): Result<Crop, CropError>
  {
    match InitialEnvelope(bs, thresh)
    case Err(err) => Err(err)
    case Ok(env) =>
      var keep := Retained(ClassBoxes(bs, thresh, Small), env);
      Ok(Crop(env, Expanded(env, keep), keep))
  }

  /** The objects of the rewritten annotation. */
  function CroppedObjects(objs: seq<XmlObject>, thresh: int, c: Crop): seq<XmlObject>
  {
    ShiftAll(Survivors(objs, thresh, c.keep), c.final.left, c.final.top)
  }

  // ---------------------------------------------------------------------
  // The steps of drop_crop_small_bbox
  // ---------------------------------------------------------------------

  /** small_bbox.py lines 76-86: the index list of large areas, `x_val`/`y_val`, and their min and max. */
  method FindInitialEnvelope(bboxes: seq<Box>, area: seq<int>, thresh: int) returns (r: Result<Envelope, CropError>)
    requires area == AreasOf(bboxes)
    ensures r == InitialEnvelope(bboxes, thresh)
  {
    var indexList := IndexList(area, |area|, thresh, Large);
    var xVal: seq<int>, yVal: seq<int> := [], [];
    for k := 0 to |indexList|
      invariant xVal == XValues(Pick(bboxes, indexList[..k]))
      invariant yVal == YValues(Pick(bboxes, indexList[..k]))
    {
      var targetBox := bboxes[indexList[k]];
      assert indexList[..k + 1] == indexList[..k] + [indexList[k]];
      PickSnoc(bboxes, indexList[..k], indexList[k]);
      xVal := xVal + [targetBox.xmin];
      yVal := yVal + [targetBox.ymin];
      xVal := xVal + [targetBox.xmax];
      yVal := yVal + [targetBox.ymax];
    }
    assert indexList[..|indexList|] == indexList;
    if xVal == [] {
      return Err(NoLargeObjects);
    }
    var left, right := Min(xVal), Max(xVal);
    var top, bottom := Min(yVal), Max(yVal);
    r := Ok(Envelope(left, top, right, bottom));
  }

  /** small_bbox.py lines 89-92: the small boxes, each replaced by the first box with its area. */
  method CollectSmallBoxes(bboxes: seq<Box>, area: seq<int>, thresh: int) returns (smallBoxes: seq<Box>)
    requires area == AreasOf(bboxes)
    ensures smallBoxes == ClassBoxes(bboxes, thresh, Small)
  {
    var smallIndexList := IndexList(area, |area|, thresh, Small);
    smallBoxes := [];
    for k := 0 to |smallIndexList|
      invariant smallBoxes == Pick(bboxes, smallIndexList[..k])
    {
      assert smallIndexList[..k + 1] == smallIndexList[..k] + [smallIndexList[k]];
      PickSnoc(bboxes, smallIndexList[..k], smallIndexList[k]);
      smallBoxes := smallBoxes + [bboxes[smallIndexList[k]]];
    }
    assert smallIndexList[..|smallIndexList|] == smallIndexList;
  }

  /** small_bbox.py lines 100-110: one pass over the small boxes against the initial envelope. */
  method SelectToKeep(smallBoxes: seq<Box>, e: Envelope) returns (toKeep: seq<Box>)
    ensures toKeep == Retained(smallBoxes, e)
    ensures forall b :: b in toKeep <==> b in smallBoxes && !WhollyOutside(b, e)
  {
    toKeep := [];
    for k := 0 to |smallBoxes|
      invariant toKeep == Retained(smallBoxes[..k], e)
    {
      var obj := smallBoxes[k];
      assert smallBoxes[..k + 1] == smallBoxes[..k] + [obj];
      FilterSnoc(smallBoxes[..k], obj, (b: Box) => !WhollyOutside(b, e));
      var txmin, tymin, txmax, tymax := obj.xmin, obj.ymin, obj.xmax, obj.ymax;
      if !((txmin < e.left && txmax < e.left)
          || (txmin > e.right && txmax > e.right)
          || (tymin < e.top && tymax < e.top)
          || (tymin > e.bottom && tymax > e.bottom))
      {
        toKeep := toKeep + [obj];
      }
    }
    assert smallBoxes[..|smallBoxes|] == smallBoxes;
  }

  /** small_bbox.py lines 113-122: the first-match adjustment of the envelope for each retained box. */
  method AdjustEnvelope(e: Envelope, toKeep: seq<Box>) returns (r: Envelope)
    ensures r == Expanded(e, toKeep)
    ensures Contains(r, e)
  {
    var left, top, right, bottom := e.left, e.top, e.right, e.bottom;
    for k := 0 to |toKeep|
      invariant Envelope(left, top, right, bottom) == Expanded(e, toKeep[..k])
    {
      var obj := toKeep[k];
      assert toKeep[..k + 1][..k] == toKeep[..k];
      var txmin, tymin, txmax, tymax := obj.xmin, obj.ymin, obj.xmax, obj.ymax;
      if txmin < left {
        left := txmin;
      } else if tymin < top {
        top := tymin;
      } else if txmax > right {
        right := txmax;
      } else if tymax > bottom {
        bottom := tymax;
      }
    }
    assert toKeep[..|toKeep|] == toKeep;
    r := Envelope(left, top, right, bottom);
    ExpandedGrows(e, toKeep);
  }

  /**
   * The body of the per-file loop of drop_crop_small_bbox. The raster crop is
   * not modelled: `w` and `h` stand for the size the image library reports
   * for the image cropped to the final envelope.
   */
  method DropCropSmallBbox(ann: Annotation, thresh: int, w: int, h: int) returns (r: Result<Crop, CropError>)
    modifies ann
    ensures r == Plan(BoxesOf(old(ann.objects)), thresh)
    ensures r.Err? ==> ann.objects == old(ann.objects) && ann.width == old(ann.width) && ann.height == old(ann.height)
    ensures r.Ok? ==> ann.width == w && ann.height == h
    ensures r.Ok? ==> ann.objects == CroppedObjects(old(ann.objects), thresh, r.value)
  {
    var bboxes := ann.GetBoxes();
    var area := ann.GetAreas();
    assert bboxes == BoxesOf(ann.objects);
    assert area == AreasOf(bboxes);
    var initial := FindInitialEnvelope(bboxes, area, thresh);
    if initial.Err? {
      return Err(initial.error);
    }
    var env := initial.value;
    var smallBoxes := CollectSmallBoxes(bboxes, area, thresh);
    var toKeep := SelectToKeep(smallBoxes, env);
    var final := AdjustEnvelope(env, toKeep);
    var remain := ann.DropSmallBoxes(thresh, toKeep);
    ann.UpdateCrop(w, h, final.left, final.top);
    r := Ok(Crop(env, final, toKeep));
  }

  // ---------------------------------------------------------------------
  // Properties of the plan
  // ---------------------------------------------------------------------

  /** The plan exists iff some box has an area above the threshold. */
  lemma PlanDefinedIffLargeBox(bs: seq<Box>, thresh: int)
    ensures Plan(bs, thresh).Ok? <==> exists i :: 0 <= i < |bs| && Area(bs[i]) > thresh
  {
    var area := AreasOf(bs);
    var large := ClassBoxes(bs, thresh, Large);
    if i :| 0 <= i < |bs| && Area(bs[i]) > thresh {
      var k := IndexOf(area, area[i]);
      assert area[k] == area[i];
      ClassBoxesMembers(bs, thresh, Large, bs[k]);
      assert bs[k] in large;
    }
    if large != [] {
      ClassBoxesMembers(bs, thresh, Large, large[0]);
    }
  }

  /**
   * The initial envelope is the tightest envelope around the large boxes
   * that are the first with their area; it encloses each of them.
   */
  lemma PlanInitialEnclosesLarge(bs: seq<Box>, thresh: int)
    requires Plan(bs, thresh).Ok?
    ensures var e := Plan(bs, thresh).value.initial;
      e.left <= e.right && e.top <= e.bottom &&
      forall i :: 0 <= i < |bs| && Area(bs[i]) > thresh && IndexOf(AreasOf(bs), AreasOf(bs)[i]) == i ==>
        Encloses(e, bs[i])
  {
    var large := ClassBoxes(bs, thresh, Large);
    BoundingIsTight(large);
    forall i | 0 <= i < |bs| && Area(bs[i]) > thresh && IndexOf(AreasOf(bs), AreasOf(bs)[i]) == i
      ensures bs[i] in large
    {
      ClassBoxesMembers(bs, thresh, Large, bs[i]);
    }
  }

  /** Expansion never shrinks the envelope: the final one contains the initial one. */
  lemma PlanFinalContainsInitial(bs: seq<Box>, thresh: int)
    requires Plan(bs, thresh).Ok?
    ensures Contains(Plan(bs, thresh).value.final, Plan(bs, thresh).value.initial)
  {
    var c := Plan(bs, thresh).value;
    ExpandedGrows(c.initial, c.keep);
  }

  /**
   * A box is in `to_keep` iff it is the first box with its area, that area
   * is strictly below the threshold, and it is not wholly outside the
   * INITIAL envelope.
   */
  lemma PlanKeepMembers(bs: seq<Box>, thresh: int, b: Box)
    requires Plan(bs, thresh).Ok?
    ensures var c := Plan(bs, thresh).value;
      b in c.keep <==>
        (exists i :: 0 <= i < |bs| && bs[i] == b && AreasOf(bs)[i] < thresh
                  && IndexOf(AreasOf(bs), AreasOf(bs)[i]) == i)
        && !WhollyOutside(b, c.initial)
  {
    ClassBoxesMembers(bs, thresh, Small, b);
  }

  /**
   * The rewritten annotation keeps exactly the objects whose area is above
   * the threshold or whose box is in `to_keep`, in document order: an object
   * whose area equals the threshold is always removed, every large object
   * stays, and every small object left was not wholly outside the initial
   * envelope.
   */
  lemma SurvivorsOfPlan(objs: seq<XmlObject>, thresh: int)
    requires Plan(BoxesOf(objs), thresh).Ok?
    ensures var c := Plan(BoxesOf(objs), thresh).value;
      var kept := Survivors(objs, thresh, c.keep);
      (forall o :: o in kept <==> o in objs && (Area(o.box) > thresh || o.box in c.keep)) &&
      (forall o :: o in kept ==> Area(o.box) != thresh) &&
      (forall o :: o in kept && Area(o.box) <= thresh ==> !WhollyOutside(o.box, c.initial))
  {
    var bs := BoxesOf(objs);
    var c := Plan(bs, thresh).value;
    ClassBoxesAreas(bs, thresh, Small);
    forall o | o in objs && o.box in c.keep
      ensures Area(o.box) < thresh && !WhollyOutside(o.box, c.initial)
    {
    }
  }

  /** A small object that is first with its area and touches the initial envelope survives. */
  lemma FirstSmallTouchingSurvives(objs: seq<XmlObject>, thresh: int, i: nat)
    requires Plan(BoxesOf(objs), thresh).Ok?
    requires i < |objs|
    requires Area(objs[i].box) < thresh
    requires IndexOf(AreasOf(BoxesOf(objs)), AreasOf(BoxesOf(objs))[i]) == i
    requires !WhollyOutside(objs[i].box, Plan(BoxesOf(objs), thresh).value.initial)
    ensures objs[i] in Survivors(objs, thresh, Plan(BoxesOf(objs), thresh).value.keep)
  {
    var bs := BoxesOf(objs);
    assert bs[i] == objs[i].box && AreasOf(bs)[i] == Area(objs[i].box);
    PlanKeepMembers(bs, thresh, objs[i].box);
  }

  // ---------------------------------------------------------------------
  // Worked examples
  // ---------------------------------------------------------------------

  function Obj(b: Box): XmlObject
  {
    XmlObject("item", "Unspecified", "0", "0", b)
  }

  /** Threshold 400: a large box [10,10,50,50], small boxes [45,45,60,60] and [200,200,210,210]. */
  function ExampleBoxes(): seq<Box>
  {
    [Box(10, 10, 50, 50), Box(45, 45, 60, 60), Box(200, 200, 210, 210)]
  }

  lemma ExampleIndexLists()
    ensures IndexList([1600, 225, 100], 3, 400, Large) == [0]
    ensures IndexList([1600, 225, 100], 3, 400, Small) == [1, 2]
  {
    var area := [1600, 225, 100];
    assert IndexOf(area, 1600) == 0;
    assert IndexOf(area, 225) == 1;
    assert IndexOf(area, 100) == 2;
    assert IndexList(area, 1, 400, Large) == [0];
    assert IndexList(area, 2, 400, Large) == [0];
    assert IndexList(area, 1, 400, Small) == [];
    assert IndexList(area, 2, 400, Small) == [1];
  }

  /** The plan, once the initial envelope and the retained list are known. */
  lemma PlanFrom(bs: seq<Box>, thresh: int, env: Envelope, keep: seq<Box>)
    requires InitialEnvelope(bs, thresh) == Ok(env)
    requires Retained(ClassBoxes(bs, thresh, Small), env) == keep
    ensures Plan(bs, thresh) == Ok(Crop(env, Expanded(env, keep), keep))
  {
  }

  /** The bounding envelope of one well-formed box is that box. */
  lemma BoundingOfOne(b: Box)
    requires b.xmin <= b.xmax && b.ymin <= b.ymax
    ensures Bounding([b]) == Envelope(b.xmin, b.ymin, b.xmax, b.ymax)
  {
    assert [b][..0] == [];
    assert XValues([b]) == [b.xmin, b.xmax];
    assert YValues([b]) == [b.ymin, b.ymax];
  }

  /** The same for a box listed twice. */
  lemma BoundingOfTwins(b: Box)
    requires b.xmin <= b.xmax && b.ymin <= b.ymax
    ensures Bounding([b, b]) == Envelope(b.xmin, b.ymin, b.xmax, b.ymax)
  {
    assert [b, b][..1] == [b];
    assert [b][..0] == [];
    assert XValues([b]) == [b.xmin, b.xmax] && YValues([b]) == [b.ymin, b.ymax];
    var xs, ys := XValues([b, b]), YValues([b, b]);
    assert xs == [b.xmin, b.xmax, b.xmin, b.xmax];
    assert ys == [b.ymin, b.ymax, b.ymin, b.ymax];
    assert xs[0] in xs && xs[1] in xs && ys[0] in ys && ys[1] in ys;
  }

  /** The retention test is applied box by box. */
  lemma RetainedSnoc(small: seq<Box>, b: Box, e: Envelope)
    ensures Retained(small + [b], e) == Retained(small, e) + (if WhollyOutside(b, e) then [] else [b])
  {
    FilterSnoc(small, b, (x: Box) => !WhollyOutside(x, e));
  }

  /** Picking one position. */
  lemma PickOne(bs: seq<Box>, i: nat)
    requires i < |bs|
    ensures Pick(bs, [i]) == [bs[i]]
  {
    assert [i][..0] == [];
  }

  /** Picking two positions. */
  lemma PickTwo(bs: seq<Box>, i: nat, j: nat)
    requires i < |bs| && j < |bs|
    ensures Pick(bs, [i, j]) == [bs[i], bs[j]]
  {
    PickOne(bs, i);
    assert [i, j][..1] == [i];
  }

  lemma ExampleClasses()
    ensures ClassBoxes(ExampleBoxes(), 400, Large) == [Box(10, 10, 50, 50)]
    ensures ClassBoxes(ExampleBoxes(), 400, Small) == [Box(45, 45, 60, 60), Box(200, 200, 210, 210)]
  {
    var bs := ExampleBoxes();
    assert AreasOf(bs) == [1600, 225, 100];
    ExampleIndexLists();
    PickOne(bs, 0);
    PickTwo(bs, 1, 2);
  }

  /**
   * The worked example: [45,45,60,60] is retained and only the right side
   * grows, to 60; [200,200,210,210] is dropped.
   */
  lemma WorkedExample()
    ensures Plan(ExampleBoxes(), 400)
         == Ok(Crop(Envelope(10, 10, 50, 50), Envelope(10, 10, 60, 50), [Box(45, 45, 60, 60)]))
  {
    var env := Envelope(10, 10, 50, 50);
    var near, far := Box(45, 45, 60, 60), Box(200, 200, 210, 210);
    ExampleClasses();
    BoundingOfOne(Box(10, 10, 50, 50));
    RetainedSnoc([], near, env);
    assert [] + [near] == [near];
    RetainedSnoc([near], far, env);
    assert [near] + [far] == [near, far];
    ExpandedMayNotCover();
    PlanFrom(ExampleBoxes(), 400, env, [near]);
  }

  function ExampleObjects(): seq<XmlObject>
  {
    [Obj(Box(10, 10, 50, 50)), Obj(Box(45, 45, 60, 60)), Obj(Box(200, 200, 210, 210))]
  }

  lemma ExampleSurvivors()
    ensures Survivors(ExampleObjects(), 400, [Box(45, 45, 60, 60)])
         == [Obj(Box(10, 10, 50, 50)), Obj(Box(45, 45, 60, 60))]
  {
    var keep := [Box(45, 45, 60, 60)];
    var o1, o2, o3 := Obj(Box(10, 10, 50, 50)), Obj(Box(45, 45, 60, 60)), Obj(Box(200, 200, 210, 210));
    assert Survivors([o1], 400, keep) == [o1] by {
      SurvivorsSnoc([], o1, 400, keep);
      assert [] + [o1] == [o1];
      assert !Dropped(o1, 400, keep);
    }
    assert Survivors([o1, o2], 400, keep) == [o1, o2] by {
      SurvivorsSnoc([o1], o2, 400, keep);
      assert [o1] + [o2] == [o1, o2];
      assert !Dropped(o2, 400, keep);
    }
    assert ExampleObjects() == [o1, o2] + [o3];
    SurvivorsSnoc([o1, o2], o3, 400, keep);
    assert Dropped(o3, 400, keep);
  }

  /** In the worked example the annotation keeps two objects, shifted by (10, 10). */
  lemma WorkedExampleOutput()
    ensures CroppedObjects(ExampleObjects(), 400, Crop(Envelope(10, 10, 50, 50), Envelope(10, 10, 60, 50), [Box(45, 45, 60, 60)]))
         == [Obj(Box(0, 0, 40, 40)), Obj(Box(35, 35, 50, 50))]
  {
    ExampleSurvivors();
  }

  /**
   * The area.index quirk for small boxes: large box [0,0,100,100], threshold
   * 400, and two small boxes of area 100, the far [500,500,510,510] first and
   * the inside [10,10,20,20] second. The small list holds the far box twice,
   * nothing is retained, and the inside object is removed.
   */
  function TwinBoxes(): seq<Box>
  {
    [Box(0, 0, 100, 100), Box(500, 500, 510, 510), Box(10, 10, 20, 20)]
  }

  lemma TwinIndexLists()
    ensures IndexList([10000, 100, 100], 3, 400, Large) == [0]
    ensures IndexList([10000, 100, 100], 3, 400, Small) == [1, 1]
  {
    var area := [10000, 100, 100];
    assert IndexOf(area, 10000) == 0;
    assert IndexOf(area, 100) == 1;
    assert IndexList(area, 1, 400, Large) == [0];
    assert IndexList(area, 2, 400, Large) == [0];
    assert IndexList(area, 1, 400, Small) == [];
    assert IndexList(area, 2, 400, Small) == [1];
  }

  lemma TwinClasses()
    ensures ClassBoxes(TwinBoxes(), 400, Large) == [Box(0, 0, 100, 100)]
    ensures ClassBoxes(TwinBoxes(), 400, Small) == [Box(500, 500, 510, 510), Box(500, 500, 510, 510)]
  {
    var bs := TwinBoxes();
    assert AreasOf(bs) == [10000, 100, 100];
    TwinIndexLists();
    PickOne(bs, 0);
    PickTwo(bs, 1, 1);
  }

  lemma EqualAreaSmallBoxIsDropped()
    ensures Plan(TwinBoxes(), 400) == Ok(Crop(Envelope(0, 0, 100, 100), Envelope(0, 0, 100, 100), []))
    ensures Obj(Box(10, 10, 20, 20)) !in Survivors([Obj(Box(0, 0, 100, 100)), Obj(Box(500, 500, 510, 510)), Obj(Box(10, 10, 20, 20))], 400, [])
  {
    var env := Envelope(0, 0, 100, 100);
    var far := Box(500, 500, 510, 510);
    TwinClasses();
    BoundingOfOne(Box(0, 0, 100, 100));
    RetainedSnoc([], far, env);
    assert [] + [far] == [far];
    RetainedSnoc([far], far, env);
    assert [far] + [far] == [far, far];
    PlanFrom(TwinBoxes(), 400, env, []);
    assert Dropped(Obj(Box(10, 10, 20, 20)), 400, []);
  }

  /** Two large boxes of area 1600 and no small one. */
  lemma EqualAreaLargeClasses()
    ensures ClassBoxes([Box(0, 0, 40, 40), Box(100, 100, 140, 140)], 400, Large) == [Box(0, 0, 40, 40), Box(0, 0, 40, 40)]
    ensures ClassBoxes([Box(0, 0, 40, 40), Box(100, 100, 140, 140)], 400, Small) == []
  {
    var bs := [Box(0, 0, 40, 40), Box(100, 100, 140, 140)];
    var area := AreasOf(bs);
    assert area == [1600, 1600];
    assert IndexOf(area, 1600) == 0;
    assert IndexList(area, 1, 400, Large) == [0];
    assert IndexList(area, 2, 400, Large) == [0, 0];
    assert IndexList(area, 2, 400, Small) == [];
    PickTwo(bs, 0, 0);
  }

  /**
   * The same quirk for large boxes: of two large boxes with equal areas only
   * the first shapes the initial envelope, so the second, which stays in the
   * annotation, can lie outside the crop.
   */
  lemma EqualAreaLargeBoxNotEnclosed()
    ensures Plan([Box(0, 0, 40, 40), Box(100, 100, 140, 140)], 400)
         == Ok(Crop(Envelope(0, 0, 40, 40), Envelope(0, 0, 40, 40), []))
    ensures !Encloses(Envelope(0, 0, 40, 40), Box(100, 100, 140, 140))
  {
    var env := Envelope(0, 0, 40, 40);
    EqualAreaLargeClasses();
    BoundingOfTwins(Box(0, 0, 40, 40));
    assert Retained([], env) == [];
    PlanFrom([Box(0, 0, 40, 40), Box(100, 100, 140, 140)], 400, env, []);
  }

  /**
   * Equal-area twins can move several sides: with the large box
   * [0,0,100,100] and the small boxes [-5,-5,5,5] and [50,50,60,60] (both of
   * area 100), the small list holds the first twice, so `to_keep` does too;
   * the first entry moves the left side, the second the top. The twin
   * [50,50,60,60] inside the crop is never considered and is removed.
   */
  function TwinSidesBoxes(): seq<Box>
  {
    [Box(0, 0, 100, 100), Box(-5, -5, 5, 5), Box(50, 50, 60, 60)]
  }

  lemma TwinSidesClasses()
    ensures ClassBoxes(TwinSidesBoxes(), 400, Large) == [Box(0, 0, 100, 100)]
    ensures ClassBoxes(TwinSidesBoxes(), 400, Small) == [Box(-5, -5, 5, 5), Box(-5, -5, 5, 5)]
  {
    var bs := TwinSidesBoxes();
    assert AreasOf(bs) == [10000, 100, 100];
    TwinIndexLists();
    PickOne(bs, 0);
    PickTwo(bs, 1, 1);
  }

  lemma TwinMovesTwoSides()
    ensures Plan(TwinSidesBoxes(), 400)
         == Ok(Crop(Envelope(0, 0, 100, 100), Envelope(-5, -5, 100, 100), [Box(-5, -5, 5, 5), Box(-5, -5, 5, 5)]))
    ensures SidesChanged(Envelope(0, 0, 100, 100), Envelope(-5, -5, 100, 100)) == 2
    ensures Obj(Box(50, 50, 60, 60)) !in Survivors([Obj(Box(0, 0, 100, 100)), Obj(Box(-5, -5, 5, 5)), Obj(Box(50, 50, 60, 60))],
                                                  400, [Box(-5, -5, 5, 5), Box(-5, -5, 5, 5)])
  {
    var env := Envelope(0, 0, 100, 100);
    var near := Box(-5, -5, 5, 5);
    TwinSidesClasses();
    BoundingOfOne(Box(0, 0, 100, 100));
    RetainedSnoc([], near, env);
    assert [] + [near] == [near];
    RetainedSnoc([near], near, env);
    assert [near] + [near] == [near, near];
    assert Expanded(env, [near]) == Envelope(-5, 0, 100, 100) by { assert [near][..0] == []; }
    assert Expanded(env, [near, near]) == Envelope(-5, -5, 100, 100) by { assert [near, near][..1] == [near]; }
    PlanFrom(TwinSidesBoxes(), 400, env, [near, near]);
    assert Dropped(Obj(Box(50, 50, 60, 60)), 400, [near, near]);
  }
}
