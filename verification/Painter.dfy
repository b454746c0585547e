/**
 Painting a composite frame: regions are painted one after the other, in z order, onto the three
 planes of a YUV 4:2:0 canvas. The result is a lookup: every sample shows its topmost region.
 */
module Painter {
  import opened Layout
  import opened Options
  import opened Sorting

  /** A user's picture scaled for a region: where it lies in it, and its samples by plane, column and row. */
  datatype Picture = Picture(box: Scaled, sample: (int, int, int) -> int)

  /** A region with the picture to show in it, None when its user has none. */
  datatype Item = Item(region: Region, picture: Option<Picture>)

  function Black(plane: int): int { if plane == 0 then 0 else 128 }

  /** Chroma planes have half the resolution. */
  function Divisor(plane: int): int { if plane == 0 then 1 else 2 }

  datatype Rect = Rect(x: int, y: int, width: int, height: int)

  predicate InRect(r: Rect, px: int, py: int) {
    r.x <= px < r.x + r.width && r.y <= py < r.y + r.height
  }

  function RegionRect(r: Region, plane: int): Rect {
    var d := Divisor(plane);
    Rect(r.x / d, r.y / d, r.width / d, r.height / d)
  }

  function PictureRect(r: Region, box: Scaled, plane: int): Rect {
    var d := Divisor(plane);
    Rect((r.x + box.offsetX) / d, (r.y + box.offsetY) / d, box.width / d, box.height / d)
  }

  /** What an item shows at a sample of its region: its picture, or black around it. */
  function Shown(item: Item, plane: int, px: int, py: int): int {
    if item.picture.Some? && InRect(PictureRect(item.region, item.picture.value.box, plane), px, py) then
      var r := PictureRect(item.region, item.picture.value.box, plane);
      item.picture.value.sample(plane, px - r.x, py - r.y)
    else Black(plane)
  }

  /** The samples an item paints: its whole region when it is cleared first, else only its picture. */
  predicate Paints(item: Item, clears: bool, plane: int, px: int, py: int) {
    if clears then InRect(RegionRect(item.region, plane), px, py)
    else item.picture.Some? && InRect(PictureRect(item.region, item.picture.value.box, plane), px, py)
  }

  /** The canvas after painting the items in order onto black: the last item that paints a sample wins. */
  function Painted(items: seq<Item>, clears: bool, plane: int, px: int, py: int): int {
    if items == [] then Black(plane)
    else
      var n := |items| - 1;
      if Paints(items[n], clears, plane, px, py) then Shown(items[n], plane, px, py)
      else Painted(items[..n], clears, plane, px, py)
  }

  // ----- z order -----

  function ItemZ(item: Item): int { item.region.z }

  /** The last item of the painting order that paints a sample. */
  function LastAt(s: seq<Item>, clears: bool, plane: int, px: int, py: int): Option<Item> {
    if s == [] then None
    else
      var n := |s| - 1;
      if Paints(s[n], clears, plane, px, py) then Some(s[n]) else LastAt(s[..n], clears, plane, px, py)
  }

  lemma {:induction false} PaintedIsLast(s: seq<Item>, clears: bool, plane: int, px: int, py: int)
    ensures Painted(s, clears, plane, px, py)
            == match LastAt(s, clears, plane, px, py)
               case None => Black(plane)
               case Some(item) => Shown(item, plane, px, py)
    decreases |s|
  {
    if s != [] { PaintedIsLast(s[..|s| - 1], clears, plane, px, py); }
  }

  lemma {:induction false} LastAtIsIn(s: seq<Item>, clears: bool, plane: int, px: int, py: int)
    requires LastAt(s, clears, plane, px, py).Some?
    ensures LastAt(s, clears, plane, px, py).value in s
    decreases |s|
  {
    if !Paints(s[|s| - 1], clears, plane, px, py) { LastAtIsIn(s[..|s| - 1], clears, plane, px, py); }
  }

  /** Inserting an item changes the topmost one only where it paints and nothing higher does. */
  lemma {:induction false} InsertLast(s: seq<Item>, r: Item, clears: bool, plane: int, px: int, py: int)
    requires SortedBy(s, ItemZ)
    ensures var top := LastAt(s, clears, plane, px, py);
      LastAt(InsertBy(s, r, ItemZ), clears, plane, px, py)
      == if Paints(r, clears, plane, px, py) && (top.None? || top.value.region.z <= r.region.z) then Some(r) else top
    decreases |s|
  {
    hide Paints;
    if s == [] || s[|s| - 1].region.z <= r.region.z {
      assert (s + [r])[..|s|] == s;
      if LastAt(s, clears, plane, px, py).Some? { LastAtIsIn(s, clears, plane, px, py); }
    } else {
      var n := |s| - 1;
      InsertLast(s[..n], r, clears, plane, px, py);
      var t := InsertBy(s[..n], r, ItemZ);
      assert (t + [s[n]])[..|t|] == t;
    }
  }

  /** items[i] is the topmost item at a sample: greatest z, and the later in the configuration among equals. */
  predicate IsTop(items: seq<Item>, i: int, clears: bool, plane: int, px: int, py: int)
    requires 0 <= i < |items|
  {
    && Paints(items[i], clears, plane, px, py)
    && forall j :: 0 <= j < |items| && Paints(items[j], clears, plane, px, py) ==>
         items[j].region.z < items[i].region.z || (items[j].region.z == items[i].region.z && j <= i)
  }

  /** The topmost item stays topmost among the items before any later one. */
  lemma TopOfPrefix(items: seq<Item>, i: int, n: int, clears: bool, plane: int, px: int, py: int)
    requires 0 <= i < n <= |items| && IsTop(items, i, clears, plane, px, py)
    ensures IsTop(items[..n], i, clears, plane, px, py)
  {
    hide Paints;
    assert forall j :: 0 <= j < n ==> items[..n][j] == items[j];
  }

  lemma TopBeats(items: seq<Item>, i: int, j: int, clears: bool, plane: int, px: int, py: int)
    requires 0 <= i < |items| && 0 <= j < |items| && IsTop(items, i, clears, plane, px, py)
    requires Paints(items[j], clears, plane, px, py)
    ensures items[j].region.z < items[i].region.z || (items[j].region.z == items[i].region.z && j <= i)
  {
  }

  lemma TopPaints(items: seq<Item>, i: int, clears: bool, plane: int, px: int, py: int)
    requires 0 <= i < |items| && IsTop(items, i, clears, plane, px, py)
    ensures Paints(items[i], clears, plane, px, py)
  {
  }

  /** The painter's order puts the topmost item last. */
  lemma {:induction false} TopIsLast(items: seq<Item>, i: int, clears: bool, plane: int, px: int, py: int)
    requires 0 <= i < |items| && IsTop(items, i, clears, plane, px, py)
    ensures LastAt(SortBy(items, ItemZ), clears, plane, px, py) == Some(items[i])
    decreases |items|
  {
    hide *;
    var n := |items| - 1;
    var init := items[..n];
    SortStep(items, ItemZ);
    TopPaints(items, i, clears, plane, px, py);
    SortIsSorted(init, ItemZ);
    InsertLast(SortBy(init, ItemZ), items[n], clears, plane, px, py);
    if i < n {
      TopOfPrefix(items, i, n, clears, plane, px, py);
      TopIsLast(init, i, clears, plane, px, py);
      if Paints(items[n], clears, plane, px, py) { TopBeats(items, i, n, clears, plane, px, py); }
    } else if LastAt(SortBy(init, ItemZ), clears, plane, px, py).Some? {
      var j := LastComesFrom(init, clears, plane, px, py);
      TopBeats(items, i, j, clears, plane, px, py);
    }
  }

  /** What is painted last is one of the items that paint the sample. */
  lemma LastComesFrom(items: seq<Item>, clears: bool, plane: int, px: int, py: int) returns (j: int)
    requires LastAt(SortBy(items, ItemZ), clears, plane, px, py).Some?
    ensures 0 <= j < |items| && items[j] == LastAt(SortBy(items, ItemZ), clears, plane, px, py).value
    ensures Paints(items[j], clears, plane, px, py)
  {
    hide Paints;
    var s := SortBy(items, ItemZ);
    LastAtIsIn(s, clears, plane, px, py);
    LastPaints(s, clears, plane, px, py);
    SortIsSorted(items, ItemZ);
    var item := LastAt(s, clears, plane, px, py).value;
    assert item in multiset(s);
    assert item in multiset(items);
    assert item in items;
    j :| 0 <= j < |items| && items[j] == item;
  }

  lemma {:induction false} LastPaints(s: seq<Item>, clears: bool, plane: int, px: int, py: int)
    requires LastAt(s, clears, plane, px, py).Some?
    ensures Paints(LastAt(s, clears, plane, px, py).value, clears, plane, px, py)
    decreases |s|
  {
    hide Paints;
    if !Paints(s[|s| - 1], clears, plane, px, py) { LastPaints(s[..|s| - 1], clears, plane, px, py); }
  }

  /** Painting in z order is a z lookup. */
  lemma PaintingIsLookup(items: seq<Item>, clears: bool, plane: int, px: int, py: int)
    ensures forall i :: 0 <= i < |items| && IsTop(items, i, clears, plane, px, py) ==>
              Painted(SortBy(items, ItemZ), clears, plane, px, py) == Shown(items[i], plane, px, py)
    ensures (forall i :: 0 <= i < |items| ==> !Paints(items[i], clears, plane, px, py)) ==>
              Painted(SortBy(items, ItemZ), clears, plane, px, py) == Black(plane)
  {
    hide Paints, IsTop, Shown;
    PaintedIsLast(SortBy(items, ItemZ), clears, plane, px, py);
    forall i | 0 <= i < |items| && IsTop(items, i, clears, plane, px, py)
      ensures Painted(SortBy(items, ItemZ), clears, plane, px, py) == Shown(items[i], plane, px, py)
    {
      TopIsLast(items, i, clears, plane, px, py);
    }
    if forall i :: 0 <= i < |items| ==> !Paints(items[i], clears, plane, px, py) {
      if LastAt(SortBy(items, ItemZ), clears, plane, px, py).Some? {
        var j := LastComesFrom(items, clears, plane, px, py);
      }
    }
  }

  /** Wherever some item paints there is a topmost one. */
  lemma {:induction false} TopExists(items: seq<Item>, clears: bool, plane: int, px: int, py: int, k: int)
    returns (i: int)
    requires 0 <= k < |items| && Paints(items[k], clears, plane, px, py)
    ensures 0 <= i < |items| && IsTop(items, i, clears, plane, px, py)
    decreases |items|
  {
    hide Paints;
    var n := |items| - 1;
    var init := items[..n];
    if forall j :: 0 <= j < n ==> !Paints(items[j], clears, plane, px, py) {
      i := n;
      assert IsTop(items, i, clears, plane, px, py);
    } else {
      var j :| 0 <= j < n && Paints(items[j], clears, plane, px, py);
      i := TopExists(init, clears, plane, px, py, j);
      assert forall l :: 0 <= l < n ==> init[l] == items[l];
      if Paints(items[n], clears, plane, px, py) && items[i].region.z <= items[n].region.z { i := n; }
    }
  }

  // ----- chroma and luma -----

  predicate EvenBox(box: Scaled) {
    box.width % 2 == 0 && box.height % 2 == 0 && box.offsetX % 2 == 0 && box.offsetY % 2 == 0
  }

  lemma HalfRect(x: int, w: int, c: int, d: int)
    requires x % 2 == 0 && w % 2 == 0 && 0 <= d <= 1
    ensures x / 2 <= c < x / 2 + w / 2 <==> x <= 2 * c + d < x + w
  {
  }

  lemma HalfInRect(x: int, y: int, w: int, h: int, cx: int, cy: int, dx: int, dy: int)
    requires x % 2 == 0 && y % 2 == 0 && w % 2 == 0 && h % 2 == 0 && 0 <= dx <= 1 && 0 <= dy <= 1
    ensures InRect(Rect(x / 2, y / 2, w / 2, h / 2), cx, cy) <==> InRect(Rect(x, y, w, h), 2 * cx + dx, 2 * cy + dy)
  {
    HalfRect(x, w, cx, dx);
    HalfRect(y, h, cy, dy);
  }

  lemma RegionAgrees(r: Region, cx: int, cy: int, dx: int, dy: int, plane: int)
    requires EvenRegion(r) && 0 <= dx <= 1 && 0 <= dy <= 1 && plane > 0
    ensures InRect(RegionRect(r, plane), cx, cy) <==> InRect(RegionRect(r, 0), 2 * cx + dx, 2 * cy + dy)
  {
    hide InRect;
    HalfInRect(r.x, r.y, r.width, r.height, cx, cy, dx, dy);
  }

  lemma PictureAgrees(r: Region, box: Scaled, cx: int, cy: int, dx: int, dy: int, plane: int)
    requires EvenRegion(r) && EvenBox(box) && 0 <= dx <= 1 && 0 <= dy <= 1 && plane > 0
    ensures InRect(PictureRect(r, box, plane), cx, cy) <==> InRect(PictureRect(r, box, 0), 2 * cx + dx, 2 * cy + dy)
  {
    hide InRect;
    HalfInRect(r.x + box.offsetX, r.y + box.offsetY, box.width, box.height, cx, cy, dx, dy);
  }

  /** A chroma sample belongs to a region exactly when each of its four luma samples does. */
  lemma ChromaAgrees(item: Item, clears: bool, cx: int, cy: int, dx: int, dy: int, plane: int)
    requires EvenRegion(item.region) && (item.picture.Some? ==> EvenBox(item.picture.value.box))
    requires 0 <= dx <= 1 && 0 <= dy <= 1 && plane > 0
    ensures Paints(item, clears, plane, cx, cy) <==> Paints(item, clears, 0, 2 * cx + dx, 2 * cy + dy)
  {
    hide InRect, RegionRect, PictureRect, EvenRegion, EvenBox;
    RegionAgrees(item.region, cx, cy, dx, dy, plane);
    if item.picture.Some? { PictureAgrees(item.region, item.picture.value.box, cx, cy, dx, dy, plane); }
  }

  /** So the same item is topmost there. */
  lemma ChromaOwnerAgrees(items: seq<Item>, i: int, clears: bool, cx: int, cy: int, dx: int, dy: int, plane: int)
    requires forall k :: 0 <= k < |items| ==>
               EvenRegion(items[k].region) && (items[k].picture.Some? ==> EvenBox(items[k].picture.value.box))
    requires 0 <= dx <= 1 && 0 <= dy <= 1 && plane > 0 && 0 <= i < |items|
    ensures IsTop(items, i, clears, plane, cx, cy) <==> IsTop(items, i, clears, 0, 2 * cx + dx, 2 * cy + dy)
  {
    hide Paints;
    forall k | 0 <= k < |items|
      ensures Paints(items[k], clears, plane, cx, cy) <==> Paints(items[k], clears, 0, 2 * cx + dx, 2 * cy + dy)
    {
      ChromaAgrees(items[k], clears, cx, cy, dx, dy, plane);
    }
  }

  // ----- painting in place -----

  ghost predicate RegionFits(r: Region, width: int, height: int) {
    Inside(r, width, height) && EvenRegion(r)
  }

  ghost predicate ItemFits(item: Item, width: int, height: int) {
    && RegionFits(item.region, width, height)
    && (item.picture.Some? && item.region.width >= 2 && item.region.height >= 2 ==>
          PictureFits(item.region, item.picture.value.box))
    && (item.region.width < 2 || item.region.height < 2 ==> item.picture.None?)
  }

  /** The picture lies evenly aligned inside its region. */
  predicate PictureFits(r: Region, box: Scaled) {
    && EvenBox(box) && 0 <= box.offsetX && 0 <= box.offsetY && 0 <= box.width && 0 <= box.height
    && box.offsetX + box.width <= r.width && box.offsetY + box.height <= r.height
  }

  ghost predicate PlaneOf(a: array2<int>, plane: int, width: int, height: int) {
    a.Length0 == height / Divisor(plane) && a.Length1 == width / Divisor(plane)
  }

  /** The rectangle lies on the plane. */
  predicate OnPlane(r: Rect, a: array2<int>) {
    0 <= r.x && 0 <= r.y && 0 <= r.width && 0 <= r.height && r.y + r.height <= a.Length0 && r.x + r.width <= a.Length1
  }

  method Fill(a: array2<int>, r: Rect, value: int)
    requires OnPlane(r, a)
    modifies a
    ensures forall i, j :: 0 <= i < a.Length0 && 0 <= j < a.Length1 ==>
              a[i, j] == if InRect(r, j, i) then value else old(a[i, j])
  {
    for y := 0 to r.height
      invariant forall i, j :: 0 <= i < a.Length0 && 0 <= j < a.Length1 ==>
                  a[i, j] == if InRect(r, j, i) && i < r.y + y then value else old(a[i, j])
    {
      for x := 0 to r.width
        invariant forall i, j :: 0 <= i < a.Length0 && 0 <= j < a.Length1 ==>
                    a[i, j] == if InRect(r, j, i) && (i < r.y + y || (i == r.y + y && j < r.x + x)) then value
                               else old(a[i, j])
      {
        a[r.y + y, r.x + x] := value;
      }
    }
  }

  method Blit(a: array2<int>, r: Rect, plane: int, sample: (int, int, int) -> int)
    requires OnPlane(r, a)
    modifies a
    ensures forall i, j :: 0 <= i < a.Length0 && 0 <= j < a.Length1 ==>
              a[i, j] == if InRect(r, j, i) then sample(plane, j - r.x, i - r.y) else old(a[i, j])
  {
    for y := 0 to r.height
      invariant forall i, j :: 0 <= i < a.Length0 && 0 <= j < a.Length1 ==>
                  a[i, j] == if InRect(r, j, i) && i < r.y + y then sample(plane, j - r.x, i - r.y) else old(a[i, j])
    {
      for x := 0 to r.width
        invariant forall i, j :: 0 <= i < a.Length0 && 0 <= j < a.Length1 ==>
                    a[i, j] == if InRect(r, j, i) && (i < r.y + y || (i == r.y + y && j < r.x + x))
                               then sample(plane, j - r.x, i - r.y) else old(a[i, j])
      {
        a[r.y + y, r.x + x] := sample(plane, x, y);
      }
    }
  }

  lemma RectsFit(item: Item, a: array2<int>, plane: int, width: int, height: int)
    requires Canvas(width, height) && ItemFits(item, width, height) && PlaneOf(a, plane, width, height)
    requires item.region.width >= 2 && item.region.height >= 2
    ensures OnPlane(RegionRect(item.region, plane), a)
    ensures item.picture.Some? ==> OnPlane(PictureRect(item.region, item.picture.value.box, plane), a)
    ensures item.picture.Some? ==> forall px, py ::
              InRect(PictureRect(item.region, item.picture.value.box, plane), px, py) ==>
                InRect(RegionRect(item.region, plane), px, py)
  {
  }

  /** Paints one region on one plane: clears it when asked to, then copies the picture if it lies on the canvas. */
  method PaintRegion(a: array2<int>, plane: int, item: Item, clears: bool, width: int, height: int)
    requires Canvas(width, height) && ItemFits(item, width, height) && PlaneOf(a, plane, width, height)
    requires item.region.width >= 2 && item.region.height >= 2
    modifies a
    ensures forall i, j :: 0 <= i < a.Length0 && 0 <= j < a.Length1 ==>
              a[i, j] == if Paints(item, clears, plane, j, i) then Shown(item, plane, j, i) else old(a[i, j])
  {
    RectsFit(item, a, plane, width, height);
    if clears {
      Fill(a, RegionRect(item.region, plane), Black(plane));
    }
    if item.picture.Some? {
      var r := PictureRect(item.region, item.picture.value.box, plane);
      var canvasW, canvasH := width / Divisor(plane), height / Divisor(plane);
      if r.x + r.width <= canvasW && r.y + r.height <= canvasH {
        Blit(a, r, plane, item.picture.value.sample);
      }
    }
  }

  ghost predicate Shows(a: array2<int>, plane: int, items: seq<Item>, clears: bool)
    reads a
  {
    forall i, j :: 0 <= i < a.Length0 && 0 <= j < a.Length1 ==> a[i, j] == Painted(items, clears, plane, j, i)
  }

  lemma EmptyPaintsNothing(item: Item, clears: bool, plane: int, px: int, py: int, width: int, height: int)
    requires ItemFits(item, width, height) && (item.region.width < 2 || item.region.height < 2)
    ensures !Paints(item, clears, plane, px, py)
  {
  }

  /** One more item on one plane. */
  method PaintItem(a: array2<int>, plane: int, ghost done: seq<Item>, item: Item, clears: bool, width: int, height: int)
    requires Canvas(width, height) && ItemFits(item, width, height) && PlaneOf(a, plane, width, height)
    requires Shows(a, plane, done, clears)
    modifies a
    ensures Shows(a, plane, done + [item], clears)
  {
    assert (done + [item])[..|done|] == done;
    if item.region.width < 2 || item.region.height < 2 {
      forall i, j | 0 <= i < a.Length0 && 0 <= j < a.Length1 ensures !Paints(item, clears, plane, j, i) {
        EmptyPaintsNothing(item, clears, plane, j, i, width, height);
      }
      return;
    }
    PaintRegion(a, plane, item, clears, width, height);
  }

  /** Paints a whole frame: black, then every item on all three planes. */
  method PaintFrame(y: array2<int>, u: array2<int>, v: array2<int>, items: seq<Item>, clears: bool,
                    width: int, height: int)
    requires Canvas(width, height) && y != u && u != v && y != v
    requires PlaneOf(y, 0, width, height) && PlaneOf(u, 1, width, height) && PlaneOf(v, 2, width, height)
    requires forall k :: 0 <= k < |items| ==> ItemFits(items[k], width, height)
    modifies y, u, v
    ensures Shows(y, 0, items, clears) && Shows(u, 1, items, clears) && Shows(v, 2, items, clears)
  {
    Fill(y, Rect(0, 0, y.Length1, y.Length0), Black(0));
    Fill(u, Rect(0, 0, u.Length1, u.Length0), Black(1));
    Fill(v, Rect(0, 0, v.Length1, v.Length0), Black(2));
    hide Painted, Paints, ItemFits;
    NothingPainted(y, 0, clears);
    NothingPainted(u, 1, clears);
    NothingPainted(v, 2, clears);
    for k := 0 to |items|
      invariant Shows(y, 0, items[..k], clears) && Shows(u, 1, items[..k], clears) && Shows(v, 2, items[..k], clears)
    {
      PaintItem(y, 0, items[..k], items[k], clears, width, height);
      PaintItem(u, 1, items[..k], items[k], clears, width, height);
      PaintItem(v, 2, items[..k], items[k], clears, width, height);
      assert items[..k + 1] == items[..k] + [items[k]];
    }
    assert items[..|items|] == items;
  }

  lemma NothingPainted(a: array2<int>, plane: int, clears: bool)
    requires forall i, j :: 0 <= i < a.Length0 && 0 <= j < a.Length1 ==> a[i, j] == Black(plane)
    ensures Shows(a, plane, [], clears)
  {
  }
}
