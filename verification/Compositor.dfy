/**
 A whole composite frame: the regions of the configured layout, the users' pictures letterboxed
 into them, and the canvas they are painted on. For all three layouts the canvas is a lookup: every
 sample shows the topmost region that contains it.
 */
module Compositor {
  import opened Arith
  import opened Layout
  import opened Painter
  import opened Options
  import opened Sorting

  datatype Style = Flat | Spotlight | Customized

  datatype Config = Config(width: int, height: int, style: Style, regions: seq<Region>, preserveAspect: bool)

  /** A user's latest frame: its size, and its samples once scaled to a given size. */
  datatype Source = Source(width: int, height: int, scaled: (int, int) -> (int, int, int) -> int)

  /** A configured region as initialize accepts it. */
  predicate AcceptedRegion(r: Region, width: int, height: int) {
    && r.uid != "" && 0 <= r.x && 0 <= r.y && 2 <= r.width && 2 <= r.height && EvenRegion(r)
    && r.x + r.width <= width && r.y + r.height <= height
  }

  predicate AllAccepted(rs: seq<Region>, width: int, height: int) {
    forall k :: 0 <= k < |rs| ==> AcceptedRegion(rs[k], width, height)
  }

  predicate AcceptedConfig(c: Config) {
    && 2 <= c.width <= 8192 && 2 <= c.height <= 8192 && c.width % 2 == 0 && c.height % 2 == 0
    && (if c.style.Customized? then 1 <= |c.regions| <= 32 else c.regions == [])
    && AllAccepted(c.regions, c.width, c.height)
  }

  // ----- regions -----

  predicate AllFit(rs: seq<Region>, width: int, height: int) {
    forall k :: 0 <= k < |rs| ==> Inside(rs[k], width, height) && EvenRegion(rs[k])
  }

  ghost predicate Apart(a: Region, b: Region) {
    forall px, py :: !(Contains(a, px, py) && Contains(b, px, py))
  }

  ghost predicate Disjoint(rs: seq<Region>) {
    forall i, j :: 0 <= i < |rs| && 0 <= j < |rs| && i != j ==> Apart(rs[i], rs[j])
  }

  predicate AllAtZ(rs: seq<Region>, z: int) {
    forall k :: 0 <= k < |rs| ==> rs[k].z == z
  }

  predicate Users(rs: seq<Region>, users: seq<string>) {
    |rs| == |users| && forall k :: 0 <= k < |rs| ==> rs[k].uid == users[k]
  }

  predicate IsGrid(rs: seq<Region>, cols: int, rows: int, width: int, height: int) {
    cols >= 1 && rows >= 1
    && forall k :: 0 <= k < |rs| ==> rs[k] == GridRegion(rs[k].uid, k, cols, rows, width, height)
  }

  predicate IsSpotlight(rs: seq<Region>, n: int, width: int, height: int) {
    n > 1 && forall k :: 0 <= k < |rs| ==> rs[k] == SpotlightRegion(rs[k].uid, k, n, width, height)
  }

  function RegionZ(r: Region): int { r.z }

  lemma GridApart(rs: seq<Region>, i: int, j: int, cols: int, rows: int, width: int, height: int)
    requires Canvas(width, height) && IsGrid(rs, cols, rows, width, height) && GridFits(cols, rows, |rs|)
    requires 0 <= i < |rs| && 0 <= j < |rs| && i != j
    ensures Apart(rs[i], rs[j])
  {
    hide Cut, GridRegion;
    GridRegionOk(rs[i].uid, i, cols, rows, |rs|, width, height);
    forall px, py ensures !(Contains(rs[i], px, py) && Contains(rs[j], px, py)) {
      if Contains(rs[i], px, py) {
        var c, r := PointCell(px, py, cols, rows, width, height);
        GridCovers(px, py, c, r, i, rs[i].uid, cols, rows, |rs|, width, height);
        GridCovers(px, py, c, r, j, rs[j].uid, cols, rows, |rs|, width, height);
      }
    }
  }

  lemma GridIsTiled(rs: seq<Region>, cols: int, rows: int, width: int, height: int)
    requires Canvas(width, height) && IsGrid(rs, cols, rows, width, height) && GridFits(cols, rows, |rs|)
    ensures AllFit(rs, width, height) && Disjoint(rs) && AllAtZ(rs, 0)
  {
    forall k | 0 <= k < |rs| ensures rs[k].z == 0 && Inside(rs[k], width, height) && EvenRegion(rs[k]) {
      GridRegionOk(rs[k].uid, k, cols, rows, |rs|, width, height);
    }
    hide Cut, GridRegion, Apart;
    forall i, j | 0 <= i < |rs| && 0 <= j < |rs| && i != j ensures Apart(rs[i], rs[j]) {
      GridApart(rs, i, j, cols, rows, width, height);
    }
  }

  lemma SpotlightApart(rs: seq<Region>, i: int, j: int, width: int, height: int)
    requires Canvas(width, height) && IsSpotlight(rs, |rs|, width, height)
    requires 0 <= i < |rs| && 0 <= j < |rs| && i != j
    ensures Apart(rs[i], rs[j])
  {
    hide Cut, SpotlightRegion;
    SpotlightRegionOk(rs[i].uid, i, |rs|, width, height);
    forall px, py ensures !(Contains(rs[i], px, py) && Contains(rs[j], px, py)) {
      if Contains(rs[i], px, py) {
        var owner := SpotlightPartition(px, py, |rs|, width, height);
        assert Contains(SpotlightRegion(rs[i].uid, i, |rs|, width, height), px, py);
        assert Contains(SpotlightRegion(rs[j].uid, j, |rs|, width, height), px, py) <==> j == owner;
      }
    }
  }

  lemma SpotlightIsTiled(rs: seq<Region>, width: int, height: int)
    requires Canvas(width, height) && IsSpotlight(rs, |rs|, width, height)
    ensures AllFit(rs, width, height) && Disjoint(rs) && AllAtZ(rs, 0)
  {
    forall k | 0 <= k < |rs| ensures rs[k].z == 0 && Inside(rs[k], width, height) && EvenRegion(rs[k]) {
      SpotlightRegionOk(rs[k].uid, k, |rs|, width, height);
    }
    hide Cut, SpotlightRegion, Apart;
    forall i, j | 0 <= i < |rs| && 0 <= j < |rs| && i != j ensures Apart(rs[i], rs[j]) {
      SpotlightApart(rs, i, j, width, height);
    }
  }

  method SpotlightRegions(users: seq<string>, width: int, height: int) returns (rs: seq<Region>)
    requires Canvas(width, height) && |users| > 1
    ensures Users(rs, users) && IsSpotlight(rs, |users|, width, height)
  {
    var count := |users|;
    rs := [];
    if width >= height {
      var edge := Max(2, width / 8 * 2);
      rs := rs + [Region(users[0], 0, 0, width - edge, height, 0)];
      for i := 1 to count
        invariant |rs| == i && forall k :: 0 <= k < i ==> rs[k].uid == users[k]
        invariant IsSpotlight(rs, count, width, height)
      {
        var top := Even((i - 1) * height / (count - 1));
        var bottom := Even(i * height / (count - 1));
        rs := rs + [Region(users[i], width - edge, top, edge, bottom - top, 0)];
      }
    } else {
      var edge := Max(2, height / 8 * 2);
      rs := rs + [Region(users[0], 0, 0, width, height - edge, 0)];
      for i := 1 to count
        invariant |rs| == i && forall k :: 0 <= k < i ==> rs[k].uid == users[k]
        invariant IsSpotlight(rs, count, width, height)
      {
        var left := Even((i - 1) * width / (count - 1));
        var right := Even(i * width / (count - 1));
        rs := rs + [Region(users[i], left, height - edge, right - left, edge, 0)];
      }
    }
  }

  method GridRegions(users: seq<string>, width: int, height: int)
    returns (rs: seq<Region>, ghost cols: int, ghost rows: int)
    requires Canvas(width, height) && |users| > 0
    ensures Users(rs, users) && ChosenGrid(cols, rows, |users|, width, height) && IsGrid(rs, cols, rows, width, height)
  {
    var gridCols, gridRows := CalculateOptimalLayout(|users|, width, height);
    ChosenGridFits(gridCols, gridRows, |users|, width, height);
    hide ChosenGrid, GridRegion;
    cols, rows := gridCols, gridRows;
    rs := [];
    for i := 0 to |users|
      invariant |rs| == i && forall k :: 0 <= k < i ==> rs[k].uid == users[k]
      invariant IsGrid(rs, gridCols, gridRows, width, height)
    {
      var r := CellRegion(users[i], i, gridCols, gridRows, width, height);
      rs := rs + [r];
    }
  }

  method CellRegion(uid: string, i: nat, cols: int, rows: int, width: int, height: int) returns (r: Region)
    requires cols >= 1 && rows >= 1
    ensures r == GridRegion(uid, i, cols, rows, width, height)
  {
    var col, row := i % cols, i / cols;
    var left := Even(col * width / cols);
    var top := Even(row * height / rows);
    var right := Even((col + 1) * width / cols);
    var bottom := Even((row + 1) * height / rows);
    r := Region(uid, left, top, right - left, bottom - top, 0);
  }

  /**
   The regions of n users lie where the layout puts them: in the spotlight arrangement, or else in
   the chosen grid.
   */
  ghost predicate Arranged(rs: seq<Region>, c: Config, n: nat)
    requires c.width >= 1 && c.height >= 1
  {
    if c.style.Customized? || n == 0 then true
    else if c.style.Spotlight? && n > 1 then IsSpotlight(rs, n, c.width, c.height)
    else exists cols, rows :: ChosenGrid(cols, rows, n, c.width, c.height) && IsGrid(rs, cols, rows, c.width, c.height)
  }

  /** Customized regions come in z order; the other layouts give every user a region apart from the others'. */
  method CalculateRegions(c: Config, users: seq<string>) returns (rs: seq<Region>)
    requires AcceptedConfig(c)
    ensures c.style.Customized? ==> rs == SortBy(c.regions, RegionZ)
    ensures !c.style.Customized? ==>
              Users(rs, users) && AllFit(rs, c.width, c.height) && Disjoint(rs) && AllAtZ(rs, 0)
    ensures Arranged(rs, c, |users|)
  {
    hide IsGrid, IsSpotlight, Disjoint, ChosenGrid, AllAccepted;
    if c.style.Customized? {
      return SortBy(c.regions, RegionZ);
    }
    if |users| == 0 {
      rs := [];
      NothingIsTiled(c.width, c.height);
      return;
    }
    if c.style.Spotlight? && |users| > 1 {
      rs := SpotlightRegions(users, c.width, c.height);
      SpotlightIsTiled(rs, c.width, c.height);
    } else {
      ghost var cols, rows;
      rs, cols, rows := GridRegions(users, c.width, c.height);
      ChosenGridFits(cols, rows, |users|, c.width, c.height);
      GridIsTiled(rs, cols, rows, c.width, c.height);
    }
  }

  lemma NothingIsTiled(width: int, height: int)
    ensures AllFit([], width, height) && Disjoint([]) && AllAtZ([], 0)
  {
  }

  // ----- pictures -----

  predicate Sized(frames: map<string, Source>) {
    forall u :: u in frames ==> frames[u].width >= 1 && frames[u].height >= 1
  }

  /** A region with the letterboxed picture of its user, if the user has a frame and the region has an area. */
  function Dress(r: Region, frames: map<string, Source>, preserve: bool): Item
    requires Sized(frames)
  {
    if r.width < 2 || r.height < 2 || r.uid !in frames then Item(r, None)
    else
      var src := frames[r.uid];
      var box := ScaleInto(src.width, src.height, r.width, r.height, preserve);
      Item(r, Some(Picture(box, src.scaled(box.width, box.height))))
  }

  function DressAll(rs: seq<Region>, frames: map<string, Source>, preserve: bool): (items: seq<Item>)
    requires Sized(frames)
    ensures |items| == |rs|
  {
    seq(|rs|, k requires 0 <= k < |rs| => Dress(rs[k], frames, preserve))
  }

  lemma DressFits(r: Region, frames: map<string, Source>, preserve: bool, width: int, height: int)
    requires Sized(frames) && Inside(r, width, height) && EvenRegion(r)
    ensures ItemFits(Dress(r, frames, preserve), width, height)
  {
    if r.width >= 2 && r.height >= 2 && r.uid in frames {
      LetterboxFits(frames[r.uid].width, frames[r.uid].height, r.width, r.height, preserve);
      hide ScaleInto;
    }
  }

  lemma AllDressFit(rs: seq<Region>, frames: map<string, Source>, preserve: bool, width: int, height: int)
    requires Sized(frames) && AllFit(rs, width, height)
    ensures AllItemsFit(DressAll(rs, frames, preserve), width, height)
  {
    hide ItemFits, Dress;
    forall k | 0 <= k < |rs| ensures ItemFits(Dress(rs[k], frames, preserve), width, height) {
      DressFits(rs[k], frames, preserve, width, height);
    }
  }

  // ----- sorting regions is sorting items -----

  lemma DressKeepsZ(r: Region, frames: map<string, Source>, preserve: bool)
    requires Sized(frames)
    ensures ItemZ(Dress(r, frames, preserve)) == RegionZ(r)
  {
  }

  lemma DressPush(rs: seq<Region>, r: Region, frames: map<string, Source>, preserve: bool)
    requires Sized(frames)
    ensures DressAll(rs + [r], frames, preserve) == DressAll(rs, frames, preserve) + [Dress(r, frames, preserve)]
  {
    hide Dress;
  }

  lemma DressLast(rs: seq<Region>, frames: map<string, Source>, preserve: bool)
    requires Sized(frames) && rs != []
    ensures var n := |rs| - 1;
      var items := DressAll(rs, frames, preserve);
      items[..n] == DressAll(rs[..n], frames, preserve) && items[n] == Dress(rs[n], frames, preserve)
  {
    hide Dress;
  }

  lemma {:induction false} InsertCommutes(rs: seq<Region>, r: Region, frames: map<string, Source>, preserve: bool)
    requires Sized(frames)
    ensures DressAll(InsertBy(rs, r, RegionZ), frames, preserve)
            == InsertBy(DressAll(rs, frames, preserve), Dress(r, frames, preserve), ItemZ)
    decreases |rs|
  {
    hide Dress, DressAll;
    DressKeepsZ(r, frames, preserve);
    DressPush(rs, r, frames, preserve);
    if rs != [] {
      var n := |rs| - 1;
      DressLast(rs, frames, preserve);
      DressKeepsZ(rs[n], frames, preserve);
      if RegionZ(rs[n]) > RegionZ(r) {
        InsertCommutes(rs[..n], r, frames, preserve);
        DressPush(InsertBy(rs[..n], r, RegionZ), rs[n], frames, preserve);
      }
    } else {
      DressNothing(frames, preserve);
    }
  }

  lemma DressNothing(frames: map<string, Source>, preserve: bool)
    requires Sized(frames)
    ensures DressAll([], frames, preserve) == []
  {
  }

  lemma {:induction false} SortCommutes(rs: seq<Region>, frames: map<string, Source>, preserve: bool)
    requires Sized(frames)
    ensures DressAll(SortBy(rs, RegionZ), frames, preserve) == SortBy(DressAll(rs, frames, preserve), ItemZ)
    decreases |rs|
  {
    hide Dress, DressAll, InsertBy;
    if rs == [] {
      DressNothing(frames, preserve);
    } else {
      var n := |rs| - 1;
      DressLast(rs, frames, preserve);
      SortCommutes(rs[..n], frames, preserve);
      InsertCommutes(SortBy(rs[..n], RegionZ), rs[n], frames, preserve);
    }
  }

  lemma {:induction false} InsertFits(rs: seq<Region>, r: Region, width: int, height: int)
    requires AllFit(rs, width, height) && Inside(r, width, height) && EvenRegion(r)
    ensures AllFit(InsertBy(rs, r, RegionZ), width, height)
    decreases |rs|
  {
    hide Inside, EvenRegion;
    if rs != [] && rs[|rs| - 1].z > r.z { InsertFits(rs[..|rs| - 1], r, width, height); }
  }

  lemma {:induction false} SortFits(rs: seq<Region>, width: int, height: int)
    requires AllAccepted(rs, width, height)
    ensures AllFit(rs, width, height) && AllFit(SortBy(rs, RegionZ), width, height)
    decreases |rs|
  {
    if rs != [] {
      var n := |rs| - 1;
      SortFits(rs[..n], width, height);
      InsertFits(SortBy(rs[..n], RegionZ), rs[n], width, height);
    }
  }

  // ----- the frame -----

  /** A sample shows the topmost region that contains it, and is black where there is none. */
  ghost predicate SampleIsTop(value: int, plane: int, items: seq<Item>, px: int, py: int) {
    && (forall k :: 0 <= k < |items| && IsTop(items, k, true, plane, px, py) ==>
           value == Shown(items[k], plane, px, py))
    && ((forall k :: 0 <= k < |items| ==> !Paints(items[k], true, plane, px, py)) ==> value == Black(plane))
  }

  ghost predicate PlaneIsTop(a: array2<int>, plane: int, items: seq<Item>)
    reads a
  {
    forall i, j :: 0 <= i < a.Length0 && 0 <= j < a.Length1 ==> SampleIsTop(a[i, j], plane, items, j, i)
  }

  lemma SortedSample(items: seq<Item>, plane: int, px: int, py: int)
    ensures SampleIsTop(Painted(SortBy(items, ItemZ), true, plane, px, py), plane, items, px, py)
  {
    hide Paints, IsTop, Shown, Painted, SortBy;
    PaintingIsLookup(items, true, plane, px, py);
  }

  lemma SortedShowsTop(a: array2<int>, plane: int, items: seq<Item>)
    requires Shows(a, plane, SortBy(items, ItemZ), true)
    ensures PlaneIsTop(a, plane, items)
  {
    hide SampleIsTop, Painted, SortBy;
    forall i, j | 0 <= i < a.Length0 && 0 <= j < a.Length1 ensures SampleIsTop(a[i, j], plane, items, j, i) {
      SortedSample(items, plane, j, i);
    }
  }

  /** A picture lies in its region on every plane. */
  lemma PictureInRegion(item: Item, plane: int, px: int, py: int, width: int, height: int)
    requires ItemFits(item, width, height)
    ensures Paints(item, false, plane, px, py) ==> Paints(item, true, plane, px, py)
    ensures Paints(item, true, plane, px, py) && !Paints(item, false, plane, px, py) ==>
              Shown(item, plane, px, py) == Black(plane)
  {
  }

  /** No item but k has its region at the sample. */
  predicate OnlyOwner(items: seq<Item>, k: int, plane: int, px: int, py: int) {
    forall j :: 0 <= j < |items| && j != k ==> !Paints(items[j], true, plane, px, py)
  }

  ghost predicate AllItemsFit(items: seq<Item>, width: int, height: int) {
    forall k :: 0 <= k < |items| ==> ItemFits(items[k], width, height)
  }

  /** Without clearing, a sample only one region contains shows that region all the same. */
  lemma {:induction false} OwnerShows(items: seq<Item>, k: int, plane: int, px: int, py: int, width: int, height: int)
    requires AllItemsFit(items, width, height) && OnlyOwner(items, k, plane, px, py)
    requires 0 <= k < |items| ==> Paints(items[k], true, plane, px, py)
    ensures Painted(items, false, plane, px, py)
            == if 0 <= k < |items| then Shown(items[k], plane, px, py) else Black(plane)
    decreases |items|
  {
    hide Paints, Shown, ItemFits;
    if items != [] {
      var n := |items| - 1;
      PictureInRegion(items[n], plane, px, py, width, height);
      var init := items[..n];
      assert forall j :: 0 <= j < n ==> init[j] == items[j];
      OwnerShows(init, k, plane, px, py, width, height);
    }
  }

  /** Regions apart on the canvas are apart on every plane. */
  lemma ApartOnPlane(a: Item, b: Item, plane: int, px: int, py: int)
    requires Apart(a.region, b.region) && EvenRegion(a.region) && EvenRegion(b.region)
    ensures !(Paints(a, true, plane, px, py) && Paints(b, true, plane, px, py))
  {
    var lx, ly := px * Divisor(plane), py * Divisor(plane);
    RegionOnPlane(a, plane, px, py);
    RegionOnPlane(b, plane, px, py);
    assert !(Contains(a.region, lx, ly) && Contains(b.region, lx, ly));
  }

  lemma RegionOnPlane(item: Item, plane: int, px: int, py: int)
    requires EvenRegion(item.region)
    ensures Paints(item, true, plane, px, py) <==> Contains(item.region, px * Divisor(plane), py * Divisor(plane))
  {
    var r := item.region;
    if plane != 0 { HalfInRect(r.x, r.y, r.width, r.height, px, py, 0, 0); }
  }

  ghost predicate ItemsApart(items: seq<Item>) {
    && (forall i, j :: 0 <= i < |items| && 0 <= j < |items| && i != j ==> Apart(items[i].region, items[j].region))
    && (forall i :: 0 <= i < |items| ==> EvenRegion(items[i].region))
  }

  lemma OwnerIsOnly(items: seq<Item>, k: int, plane: int, px: int, py: int)
    requires ItemsApart(items) && 0 <= k < |items| && Paints(items[k], true, plane, px, py)
    ensures OnlyOwner(items, k, plane, px, py)
  {
    hide Apart, Paints, EvenRegion;
    forall j | 0 <= j < |items| && j != k ensures !Paints(items[j], true, plane, px, py) {
      ApartOnPlane(items[j], items[k], plane, px, py);
    }
  }

  lemma DisjointSample(items: seq<Item>, plane: int, px: int, py: int, width: int, height: int)
    requires ItemsApart(items) && AllItemsFit(items, width, height)
    ensures SampleIsTop(Painted(items, false, plane, px, py), plane, items, px, py)
  {
    hide ItemsApart, AllItemsFit, Paints, Shown, Painted;
    forall k | 0 <= k < |items| && IsTop(items, k, true, plane, px, py)
      ensures Painted(items, false, plane, px, py) == Shown(items[k], plane, px, py)
    {
      OwnerIsOnly(items, k, plane, px, py);
      OwnerShows(items, k, plane, px, py, width, height);
    }
    if forall k :: 0 <= k < |items| ==> !Paints(items[k], true, plane, px, py) {
      OwnerShows(items, -1, plane, px, py, width, height);
    }
  }

  lemma DisjointShowsTop(a: array2<int>, plane: int, items: seq<Item>, width: int, height: int)
    requires Shows(a, plane, items, false) && ItemsApart(items) && AllItemsFit(items, width, height)
    ensures PlaneIsTop(a, plane, items)
  {
    hide SampleIsTop, Painted, ItemsApart, AllItemsFit;
    forall i, j | 0 <= i < a.Length0 && 0 <= j < a.Length1 ensures SampleIsTop(a[i, j], plane, items, j, i) {
      DisjointSample(items, plane, j, i, width, height);
    }
  }

  lemma DressedApart(rs: seq<Region>, frames: map<string, Source>, preserve: bool, width: int, height: int)
    requires Sized(frames) && Disjoint(rs) && AllFit(rs, width, height)
    ensures ItemsApart(DressAll(rs, frames, preserve))
  {
    hide Apart, ScaleInto;
    var items := DressAll(rs, frames, preserve);
    assert forall k :: 0 <= k < |rs| ==> items[k].region == rs[k];
  }

  // ----- what the canvas shows, written out -----

  /** The region covers the sample; chroma samples stand for two luma columns and rows. */
  predicate Covers(r: Region, plane: int, px: int, py: int) {
    var d := if plane == 0 then 1 else 2;
    r.x <= px * d < r.x + r.width && r.y <= py * d < r.y + r.height
  }

  /** Of the regions that cover the sample, region k has the greatest z, and is the last of those with it. */
  predicate OnTop(rs: seq<Region>, k: int, plane: int, px: int, py: int) {
    && 0 <= k < |rs| && Covers(rs[k], plane, px, py)
    && forall j :: 0 <= j < |rs| && j != k && Covers(rs[j], plane, px, py) ==>
         rs[j].z < rs[k].z || (rs[j].z == rs[k].z && j < k)
  }

  /** Wherever some region lies there is one on top. */
  lemma {:induction false} OnTopExists(rs: seq<Region>, j: int, plane: int, px: int, py: int) returns (k: int)
    requires 0 <= j < |rs| && Covers(rs[j], plane, px, py)
    ensures OnTop(rs, k, plane, px, py)
    decreases |rs|
  {
    hide Covers;
    var n := |rs| - 1;
    var init := rs[..n];
    assert forall i :: 0 <= i < n ==> init[i] == rs[i];
    if i :| 0 <= i < n && Covers(init[i], plane, px, py) {
      k := OnTopExists(init, i, plane, px, py);
      if Covers(rs[n], plane, px, py) && rs[k].z <= rs[n].z { k := n; }
    } else {
      k := n;
    }
  }

  /**
   Where a picture lies in its region: even, centred, inside, reaching two opposite edges, and with the
   source's aspect ratio up to even rounding when that is to be preserved.
   */
  predicate BoxOk(b: Scaled, src: Source, r: Region, preserve: bool) {
    && b.width >= 2 && b.height >= 2 && b.width % 2 == 0 && b.height % 2 == 0
    && b.offsetX >= 0 && b.offsetY >= 0 && b.offsetX % 2 == 0 && b.offsetY % 2 == 0
    && 0 <= r.width - b.width - 2 * b.offsetX <= 2 && 0 <= r.height - b.height - 2 * b.offsetY <= 2
    && (!preserve ==> b.width == r.width && b.height == r.height)
    && (preserve && src.width * r.height > r.width * src.height ==>
          b.width == r.width && (b.height > 2 ==> 0 <= r.width * src.height - b.height * src.width < 2 * src.width))
    && (preserve && src.width * r.height <= r.width * src.height ==>
          b.height == r.height && (b.width > 2 ==> 0 <= r.height * src.width - b.width * src.height < 2 * src.height))
  }

  predicate HasPicture(r: Region, frames: map<string, Source>) {
    r.uid in frames && r.width >= 2 && r.height >= 2
  }

  /** Boxes for all the regions whose users have a frame. */
  predicate BoxesOk(boxes: seq<Scaled>, rs: seq<Region>, frames: map<string, Source>, preserve: bool) {
    && |boxes| == |rs|
    && forall k :: 0 <= k < |rs| && HasPicture(rs[k], frames) ==> BoxOk(boxes[k], frames[rs[k].uid], rs[k], preserve)
  }

  /** The sample of a region: inside the box the scaled picture's, elsewhere black. */
  predicate ShowsRegion(value: int, r: Region, b: Scaled, frames: map<string, Source>, plane: int, px: int, py: int) {
    var d := if plane == 0 then 1 else 2;
    var x, y := px - (r.x + b.offsetX) / d, py - (r.y + b.offsetY) / d;
    if HasPicture(r, frames) && 0 <= x < b.width / d && 0 <= y < b.height / d
    then value == frames[r.uid].scaled(b.width, b.height)(plane, x, y)
    else value == if plane == 0 then 0 else 128
  }

  /** The sample shows the region on top, and is black where there is none. */
  ghost predicate SampleOk(value: int, rs: seq<Region>, boxes: seq<Scaled>, frames: map<string, Source>,
                           plane: int, px: int, py: int)
    requires |boxes| == |rs|
  {
    && (forall k :: OnTop(rs, k, plane, px, py) ==> ShowsRegion(value, rs[k], boxes[k], frames, plane, px, py))
    && ((forall k :: 0 <= k < |rs| ==> !Covers(rs[k], plane, px, py)) ==> value == if plane == 0 then 0 else 128)
  }

  ghost predicate PlaneOk(a: array2<int>, rs: seq<Region>, boxes: seq<Scaled>, frames: map<string, Source>, plane: int)
    requires |boxes| == |rs|
    reads a
  {
    forall i, j :: 0 <= i < a.Length0 && 0 <= j < a.Length1 ==> SampleOk(a[i, j], rs, boxes, frames, plane, j, i)
  }

  function Box(r: Region, frames: map<string, Source>, preserve: bool): Scaled
    requires Sized(frames)
  {
    if HasPicture(r, frames)
    then ScaleInto(frames[r.uid].width, frames[r.uid].height, r.width, r.height, preserve)
    else Scaled(0, 0, 0, 0)
  }

  function Boxes(rs: seq<Region>, frames: map<string, Source>, preserve: bool): (boxes: seq<Scaled>)
    requires Sized(frames)
    ensures |boxes| == |rs|
  {
    seq(|rs|, k requires 0 <= k < |rs| => Box(rs[k], frames, preserve))
  }

  lemma BoxIsOk(r: Region, frames: map<string, Source>, preserve: bool)
    requires Sized(frames) && HasPicture(r, frames) && EvenRegion(r)
    ensures BoxOk(Box(r, frames, preserve), frames[r.uid], r, preserve)
  {
    var src := frames[r.uid];
    LetterboxFits(src.width, src.height, r.width, r.height, preserve);
    if preserve { LetterboxKeepsAspect(src.width, src.height, r.width, r.height); }
    FillsOneWay(src.width, src.height, r.width, r.height, preserve);
    hide ScaleInto;
  }

  lemma FillsOneWay(srcW: int, srcH: int, cellW: int, cellH: int, preserve: bool)
    requires srcW >= 1 && srcH >= 1 && cellW >= 2 && cellH >= 2 && cellW % 2 == 0 && cellH % 2 == 0
    ensures var s := ScaleInto(srcW, srcH, cellW, cellH, preserve);
      && (!preserve ==> s.width == cellW && s.height == cellH)
      && (preserve && srcW * cellH > cellW * srcH ==> s.width == cellW)
      && (preserve && srcW * cellH <= cellW * srcH ==> s.height == cellH)
  {
    EvenClamp(cellW, cellW);
    EvenClamp(cellH, cellH);
    hide Even, Max;
  }

  lemma BoxesAreOk(rs: seq<Region>, frames: map<string, Source>, preserve: bool, width: int, height: int)
    requires Sized(frames) && AllFit(rs, width, height)
    ensures BoxesOk(Boxes(rs, frames, preserve), rs, frames, preserve)
  {
    hide BoxOk, Box;
    forall k | 0 <= k < |rs| && HasPicture(rs[k], frames)
      ensures BoxOk(Box(rs[k], frames, preserve), frames[rs[k].uid], rs[k], preserve)
    {
      BoxIsOk(rs[k], frames, preserve);
    }
  }

  lemma DressCovers(r: Region, frames: map<string, Source>, preserve: bool, plane: int, px: int, py: int)
    requires Sized(frames) && EvenRegion(r)
    ensures Paints(Dress(r, frames, preserve), true, plane, px, py) <==> Covers(r, plane, px, py)
  {
    RegionOnPlane(Dress(r, frames, preserve), plane, px, py);
    DressIs(r, frames, preserve);
    hide Dress, Paints;
  }

  lemma DressIs(r: Region, frames: map<string, Source>, preserve: bool)
    requires Sized(frames)
    ensures var item := Dress(r, frames, preserve);
      && item.region == r && (item.picture.Some? <==> HasPicture(r, frames))
      && (item.picture.Some? ==>
            var b := Box(r, frames, preserve);
            item.picture.value == Picture(b, frames[r.uid].scaled(b.width, b.height)))
  {
    hide ScaleInto;
  }

  lemma DressShows(r: Region, frames: map<string, Source>, preserve: bool, plane: int, px: int, py: int)
    requires Sized(frames)
    ensures ShowsRegion(Shown(Dress(r, frames, preserve), plane, px, py), r, Box(r, frames, preserve), frames,
                        plane, px, py)
  {
    DressIs(r, frames, preserve);
    hide Dress, Box;
  }

  lemma TopIsOnTop(rs: seq<Region>, frames: map<string, Source>, preserve: bool, k: int, plane: int, px: int, py: int,
                   width: int, height: int)
    requires Sized(frames) && AllFit(rs, width, height) && OnTop(rs, k, plane, px, py)
    ensures IsTop(DressAll(rs, frames, preserve), k, true, plane, px, py)
  {
    hide Dress, Paints, Covers;
    var items := DressAll(rs, frames, preserve);
    forall j | 0 <= j < |rs|
      ensures (Paints(items[j], true, plane, px, py) <==> Covers(rs[j], plane, px, py)) && items[j].region.z == rs[j].z
    {
      DressCovers(rs[j], frames, preserve, plane, px, py);
      DressKeepsZ(rs[j], frames, preserve);
    }
  }

  lemma SampleWrittenOut(value: int, rs: seq<Region>, frames: map<string, Source>, preserve: bool,
                         plane: int, px: int, py: int, width: int, height: int)
    requires Sized(frames) && AllFit(rs, width, height)
    requires SampleIsTop(value, plane, DressAll(rs, frames, preserve), px, py)
    ensures SampleOk(value, rs, Boxes(rs, frames, preserve), frames, plane, px, py)
  {
    hide Dress, Paints, Covers, IsTop, Shown, ShowsRegion, Box, OnTop, AllFit;
    var items := DressAll(rs, frames, preserve);
    forall k | OnTop(rs, k, plane, px, py)
      ensures 0 <= k < |rs| && ShowsRegion(value, rs[k], Boxes(rs, frames, preserve)[k], frames, plane, px, py)
    {
      OnTopInRange(rs, k, plane, px, py);
      TopIsOnTop(rs, frames, preserve, k, plane, px, py, width, height);
      DressShows(rs[k], frames, preserve, plane, px, py);
    }
    if forall k :: 0 <= k < |rs| ==> !Covers(rs[k], plane, px, py) {
      forall k | 0 <= k < |rs| ensures !Paints(items[k], true, plane, px, py) {
        RegionFitsAt(rs, k, width, height);
        DressCovers(rs[k], frames, preserve, plane, px, py);
      }
    }
  }

  lemma OnTopInRange(rs: seq<Region>, k: int, plane: int, px: int, py: int)
    requires OnTop(rs, k, plane, px, py)
    ensures 0 <= k < |rs|
  {
  }

  lemma RegionFitsAt(rs: seq<Region>, k: int, width: int, height: int)
    requires AllFit(rs, width, height) && 0 <= k < |rs|
    ensures EvenRegion(rs[k])
  {
  }

  lemma PlaneWrittenOut(a: array2<int>, rs: seq<Region>, frames: map<string, Source>, preserve: bool, plane: int,
                        width: int, height: int)
    requires Sized(frames) && AllFit(rs, width, height) && PlaneIsTop(a, plane, DressAll(rs, frames, preserve))
    ensures PlaneOk(a, rs, Boxes(rs, frames, preserve), frames, plane)
  {
    hide SampleIsTop, SampleOk, DressAll, Boxes, AllFit;
    forall i, j | 0 <= i < a.Length0 && 0 <= j < a.Length1
      ensures SampleOk(a[i, j], rs, Boxes(rs, frames, preserve), frames, plane, j, i)
    {
      SampleWrittenOut(a[i, j], rs, frames, preserve, plane, j, i, width, height);
    }
  }

  /**
   The canvas shows, at every sample of every plane, the topmost of the regions that contain it:
   the configured regions in a customized layout, the users' regions in the others.
   */
  method CreateCompositeFrame(c: Config, users: seq<string>, frames: map<string, Source>,
                              y: array2<int>, u: array2<int>, v: array2<int>)
    returns (rs: seq<Region>, ghost boxes: seq<Scaled>)
    requires AcceptedConfig(c) && Sized(frames) && y != u && u != v && y != v
    requires PlaneOf(y, 0, c.width, c.height) && PlaneOf(u, 1, c.width, c.height) && PlaneOf(v, 2, c.width, c.height)
    modifies y, u, v
    ensures c.style.Customized? ==> rs == SortBy(c.regions, RegionZ)
    ensures !c.style.Customized? ==> Users(rs, users) && AllFit(rs, c.width, c.height) && Disjoint(rs)
    ensures Arranged(rs, c, |users|)
    ensures var shown := if c.style.Customized? then c.regions else rs;
      && BoxesOk(boxes, shown, frames, c.preserveAspect)
      && PlaneOk(y, shown, boxes, frames, 0) && PlaneOk(u, shown, boxes, frames, 1)
      && PlaneOk(v, shown, boxes, frames, 2)
  {
    rs := CalculateRegions(c, users);
    assert Canvas(c.width, c.height);
    ghost var from := if c.style.Customized? then c.regions else rs;
    boxes := Boxes(from, frames, c.preserveAspect);
    hide Arranged, AllAccepted, Disjoint, DressAll, PlaneIsTop, PlaneOk, Shows, ItemFits, SortBy, Boxes, BoxesOk;
    var items := DressAll(rs, frames, c.preserveAspect);
    if c.style.Customized? { SortFits(c.regions, c.width, c.height); }
    AllDressFit(rs, frames, c.preserveAspect, c.width, c.height);
    PaintFrame(y, u, v, items, c.style.Customized?, c.width, c.height);
    if c.style.Customized? {
      SortCommutes(c.regions, frames, c.preserveAspect);
      ghost var shown := DressAll(c.regions, frames, c.preserveAspect);
      SortedShowsTop(y, 0, shown);
      SortedShowsTop(u, 1, shown);
      SortedShowsTop(v, 2, shown);
    } else {
      DressedApart(rs, frames, c.preserveAspect, c.width, c.height);
      DisjointShowsTop(y, 0, items, c.width, c.height);
      DisjointShowsTop(u, 1, items, c.width, c.height);
      DisjointShowsTop(v, 2, items, c.width, c.height);
    }
    BoxesAreOk(from, frames, c.preserveAspect, c.width, c.height);
    PlaneWrittenOut(y, from, frames, c.preserveAspect, 0, c.width, c.height);
    PlaneWrittenOut(u, from, frames, c.preserveAspect, 1, c.width, c.height);
    PlaneWrittenOut(v, from, frames, c.preserveAspect, 2, c.width, c.height);
  }
}
