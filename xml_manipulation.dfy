/**
 * The annotation-editing helpers of xml_manipulation.py. A parsed annotation
 * file is an `Annotation` object: the canvas size and the ordered list of
 * `<object>` elements, each with its name, pose, truncated and difficult
 * flags and its bounding box. Coordinates are integers (the text-to-int
 * parsing is not modelled). The three helpers that edit the tree in place are
 * methods that change the object; the getters, which only walk the object
 * list, are loops proved against the functions below.
 */
module XmlManipulation {
  import opened Seqs

  /** A bounding box `[xmin, ymin, xmax, ymax]`; nothing forces xmin <= xmax or ymin <= ymax. */
  datatype Box = Box(xmin: int, ymin: int, xmax: int, ymax: int)

  /** The area as the annotation helpers compute it: (ymax - ymin) * (xmax - xmin). */
  function Area(b: Box): int
  {
    (b.ymax - b.ymin) * (b.xmax - b.xmin)
  }

  /** The box moved by `-dx` horizontally and `-dy` vertically. */
  function ShiftBox(b: Box, dx: int, dy: int): Box
  {
    Box(b.xmin - dx, b.ymin - dy, b.xmax - dx, b.ymax - dy)
  }

  /** One `<object>` element of the annotation. */
  datatype XmlObject = XmlObject(name: string, pose: string, truncated: string, difficult: string, box: Box)

  /** The element `add_xml_object` builds. */
  function NewObject(name: string, b: Box): XmlObject
  {
    XmlObject(name, "Unspecified", "0", "0", b)
  }

  function BoxesOf(objs: seq<XmlObject>): seq<Box>
  {
    seq(|objs|, i requires 0 <= i < |objs| => objs[i].box)
  }

  function AreasOf(bs: seq<Box>): seq<int>
  {
    seq(|bs|, i requires 0 <= i < |bs| => Area(bs[i]))
  }

  /** The objects whose box is one of `wanted`, in document order. */
  function Targeted(objs: seq<XmlObject>, wanted: seq<Box>): (r: seq<XmlObject>)
    ensures forall o :: o in r <==> o in objs && o.box in wanted
  {
    Filter(objs, (o: XmlObject) => o.box in wanted)
  }

  /** The removal test of `drop_xml_small_bbox` when both conditions are given. */
  predicate Dropped(o: XmlObject, maxArea: int, keep: seq<Box>)
  {
    Area(o.box) <= maxArea && o.box !in keep
  }

  /** The objects left after `drop_xml_small_bbox`, in document order. */
  function Survivors(objs: seq<XmlObject>, maxArea: int, keep: seq<Box>): (r: seq<XmlObject>)
    ensures |r| <= |objs|
    ensures forall o :: o in r <==> o in objs && !Dropped(o, maxArea, keep)
  {
    Filter(objs, (o: XmlObject) => !Dropped(o, maxArea, keep))
  }

  /** The removal test is applied object by object. */
  lemma SurvivorsSnoc(objs: seq<XmlObject>, o: XmlObject, maxArea: int, keep: seq<Box>)
    ensures Survivors(objs + [o], maxArea, keep)
         == Survivors(objs, maxArea, keep) + (if Dropped(o, maxArea, keep) then [] else [o])
  {
    FilterSnoc(objs, o, (x: XmlObject) => !Dropped(x, maxArea, keep));
  }

  /** Every object with its box shifted; names, flags, order and box sizes are unchanged. */
  function ShiftAll(objs: seq<XmlObject>, dx: int, dy: int): (r: seq<XmlObject>)
    ensures |r| == |objs|
    ensures forall i :: 0 <= i < |objs| ==>
      r[i].name == objs[i].name && r[i].pose == objs[i].pose &&
      r[i].truncated == objs[i].truncated && r[i].difficult == objs[i].difficult
    ensures forall i :: 0 <= i < |objs| ==>
      r[i].box.xmax - r[i].box.xmin == objs[i].box.xmax - objs[i].box.xmin &&
      r[i].box.ymax - r[i].box.ymin == objs[i].box.ymax - objs[i].box.ymin &&
      Area(r[i].box) == Area(objs[i].box)
  {
    seq(|objs|, i requires 0 <= i < |objs| => objs[i].(box := ShiftBox(objs[i].box, dx, dy)))
  }

  /** Shifting back by the opposite amounts restores the original objects. */
  lemma ShiftAllInverse(objs: seq<XmlObject>, dx: int, dy: int)
    ensures ShiftAll(ShiftAll(objs, dx, dy), -dx, -dy) == objs
  {
    var back := ShiftAll(ShiftAll(objs, dx, dy), -dx, -dy);
    forall i | 0 <= i < |objs|
      ensures back[i] == objs[i]
    {
      assert back[i].box == objs[i].box;
    }
  }

  function NamesOf(objs: seq<XmlObject>): seq<string>
  {
    seq(|objs|, i requires 0 <= i < |objs| => objs[i].name)
  }

  /** The names of every object of every record, record by record, in document order. */
  function AllNames(records: seq<seq<XmlObject>>): seq<string>
  {
    if records == [] then [] else AllNames(records[..|records| - 1]) + NamesOf(records[|records| - 1])
  }

  /** The names in order of first appearance, each once. */
  function Dedup(ns: seq<string>): (d: seq<string>)
    ensures forall n :: n in d <==> n in ns
  {
    if ns == [] then []
    else
      var init, last := ns[..|ns| - 1], ns[|ns| - 1];
      assert ns == init + [last];
      var prev := Dedup(init);
      if last in prev then prev else prev + [last]
  }

  lemma DedupSnoc(ns: seq<string>, n: string)
    ensures Dedup(ns + [n]) == if n in Dedup(ns) then Dedup(ns) else Dedup(ns) + [n]
  {
    assert (ns + [n])[..|ns + [n]| - 1] == ns;
  }

  /** The class list holds no name twice. */
  lemma {:induction false} DedupDistinct(ns: seq<string>)
    ensures forall i, j :: 0 <= i < j < |Dedup(ns)| ==> Dedup(ns)[i] != Dedup(ns)[j]
  {
    if ns != [] {
      var init, last := ns[..|ns| - 1], ns[|ns| - 1];
      assert ns == init + [last];
      DedupDistinct(init);
      DedupSnoc(init, last);
    }
  }

  /** The class list is ordered by each name's first appearance among all objects. */
  lemma {:induction false} DedupFirstAppearance(ns: seq<string>)
    ensures forall i, j :: 0 <= i < j < |Dedup(ns)| ==>
      IndexOf(ns, Dedup(ns)[i]) < IndexOf(ns, Dedup(ns)[j])
  {
    if ns != [] {
      var init, last := ns[..|ns| - 1], ns[|ns| - 1];
      assert ns == init + [last];
      DedupFirstAppearance(init);
      DedupSnoc(init, last);
      var prev, d := Dedup(init), Dedup(ns);
      forall i, j | 0 <= i < j < |d|
        ensures IndexOf(ns, d[i]) < IndexOf(ns, d[j])
      {
        assert d[i] == prev[i] && d[i] in init;
        IndexOfSnoc(init, last, d[i]);
        if j < |prev| {
          assert d[j] == prev[j] && d[j] in init;
          IndexOfSnoc(init, last, d[j]);
        } else {
          assert d[j] == last && last !in init;
          assert IndexOf(ns, last) == |init|;
        }
      }
    }
  }

  /** A name is in the combined list iff some object of some record carries it. */
  lemma {:induction false} AllNamesMembers(records: seq<seq<XmlObject>>, n: string)
    ensures n in AllNames(records) <==> exists r, o :: r in records && o in r && o.name == n
  {
    if records != [] {
      var init, last := records[..|records| - 1], records[|records| - 1];
      assert records == init + [last];
      AllNamesMembers(init, n);
      if n in NamesOf(last) {
        var k :| 0 <= k < |last| && NamesOf(last)[k] == n;
        assert last[k] in last;
      }
      if exists o :: o in last && o.name == n {
        var o :| o in last && o.name == n;
        var k :| 0 <= k < |last| && last[k] == o;
        assert NamesOf(last)[k] == n;
      }
    }
  }

  /** Scanning one more object of the current file: its name is added iff it is new. */
  lemma ClassListStep(seen: seq<string>, objs: seq<XmlObject>, j: nat)
    requires j < |objs|
    ensures var before := Dedup(seen + NamesOf(objs[..j]));
      Dedup(seen + NamesOf(objs[..j + 1]))
        == if objs[j].name in before then before else before + [objs[j].name]
  {
    assert NamesOf(objs[..j + 1]) == NamesOf(objs[..j]) + [objs[j].name];
    assert seen + NamesOf(objs[..j + 1]) == (seen + NamesOf(objs[..j])) + [objs[j].name];
    DedupSnoc(seen + NamesOf(objs[..j]), objs[j].name);
  }

  /** Finishing one file: the scanned names are those of the files so far. */
  lemma ClassListFileDone(records: seq<seq<XmlObject>>, i: nat)
    requires i < |records|
    ensures AllNames(records[..i]) + NamesOf(records[i][..0]) == AllNames(records[..i])
    ensures AllNames(records[..i]) + NamesOf(records[i][..|records[i]|]) == AllNames(records[..i + 1])
  {
    assert records[i][..|records[i]|] == records[i];
    assert records[..i + 1][..i] == records[..i];
  }

  /** `get_xml_class_list` over the object lists of the annotation files, in folder order. */
  method GetClassList(records: seq<seq<XmlObject>>) returns (classes: seq<string>)
    ensures classes == Dedup(AllNames(records))
  {
    classes := [];
    for i := 0 to |records|
      invariant classes == Dedup(AllNames(records[..i]))
    {
      var objs := records[i];
      ClassListFileDone(records, i);
      for j := 0 to |objs|
        invariant classes == Dedup(AllNames(records[..i]) + NamesOf(objs[..j]))
      {
        var name := objs[j].name;
        ClassListStep(AllNames(records[..i]), objs, j);
        if name !in classes {
          classes := classes + [name];
        }
      }
    }
    assert records[..|records|] == records;
  }

  lemma BoxesOfSnoc(objs: seq<XmlObject>, o: XmlObject)
    ensures BoxesOf(objs + [o]) == BoxesOf(objs) + [o.box]
  {
  }

  /**
   * The state of the removal loop of `drop_xml_small_bbox` after visiting
   * all[..k]: `done` are the objects kept so far, the tree holds them
   * followed by the objects not yet visited, `pos` is where all[k] sits in
   * the tree and `remain` lists the kept boxes.
   */
  ghost predicate DropLoop(all: seq<XmlObject>, k: int, maxArea: int, keep: seq<Box>,
                           done: seq<XmlObject>, objs: seq<XmlObject>, pos: int, remain: seq<Box>)
  {
    0 <= k <= |all| && done == Survivors(all[..k], maxArea, keep) &&
    objs == done + all[k..] && pos == |done| && remain == BoxesOf(done)
  }

  /** Visiting an object the removal test selects: it is taken out of the tree. */
  lemma DropRemoveStep(all: seq<XmlObject>, k: int, maxArea: int, keep: seq<Box>,
                       done: seq<XmlObject>, objs: seq<XmlObject>, pos: int, remain: seq<Box>)
    requires DropLoop(all, k, maxArea, keep, done, objs, pos, remain)
    requires k < |all| && Dropped(all[k], maxArea, keep)
    ensures 0 <= pos < |objs|
    ensures DropLoop(all, k + 1, maxArea, keep, done, objs[..pos] + objs[pos + 1..], pos, remain)
  {
    assert all[..k + 1] == all[..k] + [all[k]];
    SurvivorsSnoc(all[..k], all[k], maxArea, keep);
    assert all[k..] == [all[k]] + all[k + 1..];
    assert objs[..pos] == done;
    assert objs[pos + 1..] == all[k + 1..];
  }

  /** Visiting an object the removal test spares: it stays, and its box is reported. */
  lemma DropKeepStep(all: seq<XmlObject>, k: int, maxArea: int, keep: seq<Box>,
                     done: seq<XmlObject>, objs: seq<XmlObject>, pos: int, remain: seq<Box>)
    requires DropLoop(all, k, maxArea, keep, done, objs, pos, remain)
    requires k < |all| && !Dropped(all[k], maxArea, keep)
    ensures DropLoop(all, k + 1, maxArea, keep, done + [all[k]], objs, pos + 1, remain + [all[k].box])
  {
    assert all[..k + 1] == all[..k] + [all[k]];
    SurvivorsSnoc(all[..k], all[k], maxArea, keep);
    assert all[k..] == [all[k]] + all[k + 1..];
    BoxesOfSnoc(done, all[k]);
  }

  /** A parsed annotation file: the XML root as the helpers below see it. */
  class Annotation {
    var width: int
    var height: int
    var objects: seq<XmlObject>

    constructor (width: int, height: int, objects: seq<XmlObject>)
      ensures this.width == width && this.height == height && this.objects == objects
    {
      this.width := width;
      this.height := height;
      this.objects := objects;
    }

    /** `get_xml_bbox`: one box per object, in document order. */
    method GetBoxes() returns (result: seq<Box>)
      ensures |result| == |objects|
      ensures forall i :: 0 <= i < |objects| ==> result[i] == objects[i].box
      ensures result == BoxesOf(objects)
    {
      result := [];
      for k := 0 to |objects|
        invariant |result| == k
        invariant forall i :: 0 <= i < k ==> result[i] == objects[i].box
      {
        var b := objects[k].box;
        result := result + [Box(b.xmin, b.ymin, b.xmax, b.ymax)];
      }
    }

    /** `get_xml_bbox_area`: one area per object, in document order. */
    method GetAreas() returns (areas: seq<int>)
      ensures |areas| == |objects|
      ensures forall i :: 0 <= i < |objects| ==>
        areas[i] == (objects[i].box.ymax - objects[i].box.ymin) * (objects[i].box.xmax - objects[i].box.xmin)
      ensures areas == AreasOf(BoxesOf(objects))
    {
      areas := [];
      for k := 0 to |objects|
        invariant |areas| == k
        invariant forall i :: 0 <= i < k ==> areas[i] == Area(objects[i].box)
      {
        var b := objects[k].box;
        var area := (b.ymax - b.ymin) * (b.xmax - b.xmin);
        areas := areas + [area];
      }
    }

    /** `get_targeted_xml_object`: exactly the objects whose box is wanted, in document order. */
    method GetTargetedObjects(wanted: seq<Box>) returns (target: seq<XmlObject>)
      ensures target == Targeted(objects, wanted)
      ensures forall o :: o in target <==> o in objects && o.box in wanted
    {
      target := [];
      for k := 0 to |objects|
        invariant target == Targeted(objects[..k], wanted)
      {
        var o := objects[k];
        assert objects[..k + 1] == objects[..k] + [o];
        FilterSnoc(objects[..k], o, (x: XmlObject) => x.box in wanted);
        if o.box in wanted {
          target := target + [o];
        }
      }
      assert objects[..|objects|] == objects;
    }

    /**
     * `drop_xml_small_bbox` with both conditions given: every object whose
     * area is at most `maxArea` and whose box is not in `keep` is removed
     * from the tree; the boxes of the objects left are returned in order.
     */
    method DropSmallBoxes(maxArea: int, keep: seq<Box>) returns (remain: seq<Box>)
      modifies this
      ensures objects == Survivors(old(objects), maxArea, keep)
      ensures remain == BoxesOf(objects)
      ensures width == old(width) && height == old(height)
    {
      var all := objects;  // findall takes a snapshot, so removing while walking it is safe
      remain := [];
      var pos := 0;        // where all[k] now sits in the tree
      ghost var done: seq<XmlObject> := [];
      for k := 0 to |all|
        invariant DropLoop(all, k, maxArea, keep, done, objects, pos, remain)
        invariant width == old(width) && height == old(height)
      {
        var o := all[k];
        var b := o.box;
        var area := Area(b);
        var cond1 := area <= maxArea;
        var cond2 := b !in keep;
        if cond1 && cond2 {
          DropRemoveStep(all, k, maxArea, keep, done, objects, pos, remain);
          objects := objects[..pos] + objects[pos + 1..];
        } else {
          DropKeepStep(all, k, maxArea, keep, done, objects, pos, remain);
          remain := remain + [b];
          pos := pos + 1;
          done := done + [o];
        }
      }
      assert all[..|all|] == all;
    }

    /**
     * `update_crop_xml_bbox`: the canvas becomes `w` x `h` and every box is
     * moved by `-xShift`, `-yShift`.
     */
    method UpdateCrop(w: int, h: int, xShift: int, yShift: int)
      modifies this
      ensures width == w && height == h
      ensures objects == ShiftAll(old(objects), xShift, yShift)
    {
      width := w;
      height := h;
      for k := 0 to |objects|
        invariant width == w && height == h
        invariant |objects| == |old(objects)|
        invariant forall i :: 0 <= i < k ==> objects[i] == old(objects)[i].(box := ShiftBox(old(objects)[i].box, xShift, yShift))
        invariant forall i :: k <= i < |objects| ==> objects[i] == old(objects)[i]
      {
        var b := objects[k].box;
        b := b.(xmin := b.xmin - xShift);
        b := b.(ymin := b.ymin - yShift);
        b := b.(xmax := b.xmax - xShift);
        b := b.(ymax := b.ymax - yShift);
        objects := objects[k := objects[k].(box := b)];
      }
    }

    /**
     * `add_xml_object`: one new object, pose "Unspecified" and truncated and
     * difficult "0", is appended after the existing ones.
     */
    method AddObject(name: string, coordinates: Box)
      modifies this
      ensures objects == old(objects) + [XmlObject(name, "Unspecified", "0", "0", coordinates)]
      ensures width == old(width) && height == old(height)
    {
      objects := objects + [NewObject(name, coordinates)];
    }
  }

  /** Looking up wanted boxes after an append sees the old matches, then possibly the new object. */
  lemma TargetedAfterAdd(objs: seq<XmlObject>, wanted: seq<Box>, name: string, b: Box)
    ensures Targeted(objs + [NewObject(name, b)], wanted)
         == Targeted(objs, wanted) + (if b in wanted then [NewObject(name, b)] else [])
  {
    FilterSnoc(objs, NewObject(name, b), (o: XmlObject) => o.box in wanted);
  }
}
