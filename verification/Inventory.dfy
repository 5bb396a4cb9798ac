/** buildDockerArtifactInventory of internal/docker/client.go. */
module Inventories {
  import opened Wrappers
  import opened Sorting
  import opened DockerArtifacts

  datatype ContainerItem = ContainerItem(id: string, names: seq<string>, state: string, imageId: string,
                                         imageRef: string, sizeRw: nat, ownership: Ownership)
  datatype ImageItem = ImageItem(id: string, repoTags: seq<string>, repoDigests: seq<string>, size: nat, created: nat,
                                 containerIds: seq<string>, inUseByRunning: bool, ownership: Ownership)
  datatype Inventory = Inventory(complete: bool, imageCount: nat, containerCount: nat,
                                 images: seq<ImageItem>, containers: seq<ContainerItem>)

  // ---------- specification ----------

  function ContainerItemOf(c: Option<Container>): Option<ContainerItem> {
    if c.None? || c.value.id == "" then None
    else Some(ContainerItem(c.value.id, SortStrings(c.value.names), c.value.state, c.value.imageId, c.value.imageRef,
                            NonNegative(c.value.sizeRw), OwnershipFromLabels(c.value.labels, false)))
  }

  /** The id of a container that uses the image. */
  function UserOf(imageId: string): Option<Container> -> Option<string> {
    (c: Option<Container>) =>
      if c.Some? && c.value.id != "" && c.value.imageId != "" && c.value.imageId == imageId then Some(c.value.id) else None
  }

  /** Some running container of the inventory uses the image. */
  predicate InUse(cs: seq<Option<Container>>, imageId: string) {
    exists k :: 0 <= k < |cs| && UserOf(imageId)(cs[k]).Some? && cs[k].value.state == "running"
  }

  function ImageItemOf(cs: seq<Option<Container>>): Option<Image> -> Option<ImageItem> {
    (i: Option<Image>) =>
      if i.None? || i.value.id == "" then None
      else Some(ImageItem(i.value.id, SortStrings(i.value.repoTags), SortStrings(i.value.repoDigests),
                          NonNegative(i.value.size), NonNegative(i.value.created),
                          SortStrings(FilterMap(cs, UserOf(i.value.id))), InUse(cs, i.value.id),
                          OwnershipFromLabels(i.value.labels, true)))
  }

  function ImageKey(i: ImageItem): string { i.id }
  function ContainerKey(c: ContainerItem): string { c.id }

  function Take<T>(xs: seq<T>, n: int): seq<T> {
    if |xs| > n then xs[..NonNegative(n)] else xs
  }

  function AllContainers(du: DiskUsage): seq<ContainerItem> {
    FilterMap(du.containers, ContainerItemOf)
  }

  function AllImages(du: DiskUsage): seq<ImageItem> {
    FilterMap(du.images, ImageItemOf(du.containers))
  }

  function InventoryOf(du: DiskUsage, maxItems: int): Inventory {
    var limit := NonNegative(maxItems);
    var images := SortBy(AllImages(du), ImageKey);
    var containers := SortBy(AllContainers(du), ContainerKey);
    Inventory(|images| <= limit && |containers| <= limit, |images|, |containers|, Take(images, limit), Take(containers, limit))
  }

  // ---------- the two loops ----------

  /** containersByImage and runningImageIDs after the first loop. */
  ghost predicate Indexed(cs: seq<Option<Container>>, byImage: map<string, seq<string>>, running: set<string>) {
    && (forall id :: Users(byImage, id) == FilterMap(cs, UserOf(id)))
    && (forall id :: id in running <==> InUse(cs, id))
  }

  function Users(byImage: map<string, seq<string>>, id: string): seq<string> {
    if id in byImage then byImage[id] else []
  }

  predicate IsUser(c: Option<Container>) {
    c.Some? && c.value.id != "" && c.value.imageId != ""
  }

  lemma InUseSnoc(cs: seq<Option<Container>>, c: Option<Container>, id: string)
    ensures InUse(cs + [c], id) <==> InUse(cs, id) || (IsUser(c) && c.value.imageId == id && c.value.state == "running")
  {
    var all := cs + [c];
    assert all[|cs|] == c;
    if InUse(cs, id) {
      var k :| 0 <= k < |cs| && UserOf(id)(cs[k]).Some? && cs[k].value.state == "running";
      assert all[k] == cs[k];
    }
    if InUse(all, id) {
      var k :| 0 <= k < |all| && UserOf(id)(all[k]).Some? && all[k].value.state == "running";
      if k < |cs| { assert cs[k] == all[k]; }
    }
  }

  lemma UsersSnoc(cs: seq<Option<Container>>, c: Option<Container>, id: string)
    ensures FilterMap(cs + [c], UserOf(id)) ==
              if IsUser(c) && c.value.imageId == id then FilterMap(cs, UserOf(id)) + [c.value.id] else FilterMap(cs, UserOf(id))
  {
    FilterMapSnoc(cs, c, UserOf(id));
    assert FilterMap(cs, UserOf(id)) + [] == FilterMap(cs, UserOf(id));
  }

  lemma IndexSkip(cs: seq<Option<Container>>, c: Option<Container>, byImage: map<string, seq<string>>, running: set<string>)
    requires Indexed(cs, byImage, running) && !IsUser(c)
    ensures Indexed(cs + [c], byImage, running)
  {
    forall id ensures Users(byImage, id) == FilterMap(cs + [c], UserOf(id)) { UsersSnoc(cs, c, id); }
    forall id ensures id in running <==> InUse(cs + [c], id) { InUseSnoc(cs, c, id); }
  }

  lemma IndexUser(cs: seq<Option<Container>>, c: Option<Container>, byImage: map<string, seq<string>>, running: set<string>,
                  byImage': map<string, seq<string>>, running': set<string>)
    requires Indexed(cs, byImage, running) && IsUser(c)
    requires byImage' == byImage[c.value.imageId := Users(byImage, c.value.imageId) + [c.value.id]]
    requires running' == if c.value.state == "running" then running + {c.value.imageId} else running
    ensures Indexed(cs + [c], byImage', running')
  {
    forall id ensures Users(byImage', id) == FilterMap(cs + [c], UserOf(id)) {
      UsersSnoc(cs, c, id);
      assert Users(byImage, id) == FilterMap(cs, UserOf(id));
    }
    forall id ensures id in running' <==> InUse(cs + [c], id) {
      InUseSnoc(cs, c, id);
      assert id in running <==> InUse(cs, id);
    }
  }

  /** The loop over containers. */
  method IndexContainers(cs: seq<Option<Container>>)
    returns (containersByImage: map<string, seq<string>>, runningImageIds: set<string>, containers: seq<ContainerItem>)
    ensures Indexed(cs, containersByImage, runningImageIds)
    ensures containers == FilterMap(cs, ContainerItemOf)
  {
    containersByImage, runningImageIds, containers := map[], {}, [];
    for k := 0 to |cs|
      invariant Indexed(cs[..k], containersByImage, runningImageIds)
      invariant containers == FilterMap(cs[..k], ContainerItemOf)
    {
      var item := cs[k];
      assert cs[..k + 1] == cs[..k] + [item];
      FilterMapSnoc(cs[..k], item, ContainerItemOf);
      ghost var byImage, running := containersByImage, runningImageIds;
      if !IsUser(item) { IndexSkip(cs[..k], item, byImage, running); }
      if item.None? || item.value.id == "" { continue; }
      var c := item.value;
      if c.imageId != "" {
        containersByImage := containersByImage[c.imageId := Users(containersByImage, c.imageId) + [c.id]];
        if c.state == "running" {
          runningImageIds := runningImageIds + {c.imageId};
        }
        IndexUser(cs[..k], item, byImage, running, containersByImage, runningImageIds);
      }
      var size := if c.sizeRw < 0 then 0 else c.sizeRw;
      containers := containers + [ContainerItem(c.id, SortStrings(c.names), c.state, c.imageId, c.imageRef, size,
                                                OwnershipFromLabels(c.labels, false))];
    }
    assert cs[..|cs|] == cs;
  }

  /** The loop over images. */
  method ListImages(listed: seq<Option<Image>>, ghost cs: seq<Option<Container>>,
                    containersByImage: map<string, seq<string>>, runningImageIds: set<string>)
    returns (images: seq<ImageItem>)
    requires Indexed(cs, containersByImage, runningImageIds)
    ensures images == FilterMap(listed, ImageItemOf(cs))
  {
    images := [];
    for k := 0 to |listed|
      invariant images == FilterMap(listed[..k], ImageItemOf(cs))
    {
      var item := listed[k];
      assert listed[..k + 1] == listed[..k] + [item];
      FilterMapSnoc(listed[..k], item, ImageItemOf(cs));
      if item.None? || item.value.id == "" { continue; }
      var i := item.value;
      var size := if i.size < 0 then 0 else i.size;
      var created := if i.created < 0 then 0 else i.created;
      var ids := Users(containersByImage, i.id);
      images := images + [ImageItem(i.id, SortStrings(i.repoTags), SortStrings(i.repoDigests), size, created,
                                    SortStrings(ids), i.id in runningImageIds, OwnershipFromLabels(i.labels, true))];
    }
    assert listed[..|listed|] == listed;
  }

  method BuildDockerArtifactInventory(du: DiskUsage, max: int) returns (inventory: Inventory)
    ensures inventory == InventoryOf(du, max)
  {
    var maxItems := if max < 0 then 0 else max;
    var containersByImage, runningImageIds, containers := IndexContainers(du.containers);
    var images := ListImages(du.images, du.containers, containersByImage, runningImageIds);
    images := SortBy(images, ImageKey);
    containers := SortBy(containers, ContainerKey);
    var complete := |images| <= maxItems && |containers| <= maxItems;
    var imageCount, containerCount := |images|, |containers|;
    if |images| > maxItems { images := images[..maxItems]; }
    if |containers| > maxItems { containers := containers[..maxItems]; }
    return Inventory(complete, imageCount, containerCount, images, containers);
  }

  // ---------- what the inventory says ----------

  /** No two entries share an id. */
  predicate DistinctIds(du: DiskUsage) {
    && (forall c, d :: c in du.containers && d in du.containers && c.Some? && d.Some? && c.value.id == d.value.id ==> c == d)
    && (forall i, j :: i in du.images && j in du.images && i.Some? && j.Some? && i.value.id == j.value.id ==> i == j)
  }

  /** The same snapshot listed in another order. */
  predicate SameListing(a: DiskUsage, b: DiskUsage) {
    multiset(a.containers) == multiset(b.containers) && multiset(a.images) == multiset(b.images)
  }

  lemma InUseIgnoresOrder(cs: seq<Option<Container>>, ds: seq<Option<Container>>, id: string)
    requires multiset(cs) == multiset(ds)
    ensures InUse(cs, id) ==> InUse(ds, id)
  {
    if InUse(cs, id) {
      var k :| 0 <= k < |cs| && UserOf(id)(cs[k]).Some? && cs[k].value.state == "running";
      assert cs[k] in multiset(ds);
      var j :| 0 <= j < |ds| && ds[j] == cs[k];
    }
  }

  lemma ImageItemIgnoresOrder(cs: seq<Option<Container>>, ds: seq<Option<Container>>, i: Option<Image>)
    requires multiset(cs) == multiset(ds)
    ensures ImageItemOf(cs)(i) == ImageItemOf(ds)(i)
  {
    if i.Some? {
      InUseIgnoresOrder(cs, ds, i.value.id);
      InUseIgnoresOrder(ds, cs, i.value.id);
      FilterMapPermutes(cs, ds, UserOf(i.value.id));
      SortIsCanonical(FilterMap(cs, UserOf(i.value.id)), FilterMap(ds, UserOf(i.value.id)), Self);
    }
  }

  lemma {:induction false} FilterMapSameFunction<A, B>(xs: seq<A>, f: A -> Option<B>, g: A -> Option<B>)
    requires forall x :: x in xs ==> f(x) == g(x)
    ensures FilterMap(xs, f) == FilterMap(xs, g)
  {
    if xs != [] { FilterMapSameFunction(xs[..|xs| - 1], f, g); }
  }

  lemma IdsIdentifyItems(du: DiskUsage)
    requires DistinctIds(du)
    ensures KeysIdentify(AllContainers(du), ContainerKey)
    ensures KeysIdentify(AllImages(du), ImageKey)
  {
    FilterMapMembers(du.containers, ContainerItemOf);
    forall x, y | x in AllContainers(du) && y in AllContainers(du) && x.id == y.id ensures x == y {
      var c :| c in du.containers && ContainerItemOf(c) == Some(x);
      var d :| d in du.containers && ContainerItemOf(d) == Some(y);
      assert c.value.id == d.value.id;
    }
    IdsIdentifyImages(du);
  }

  lemma IdsIdentifyImages(du: DiskUsage)
    requires DistinctIds(du)
    ensures KeysIdentify(AllImages(du), ImageKey)
  {
    var f := ImageItemOf(du.containers);
    FilterMapMembers(du.images, f);
    forall x, y | x in AllImages(du) && y in AllImages(du) && x.id == y.id ensures x == y {
      var i :| i in du.images && f(i) == Some(x);
      var j :| j in du.images && f(j) == Some(y);
      assert i.value.id == j.value.id;
    }
  }

  /** The inventory does not depend on the order in which Docker lists the snapshot. */
  lemma InventoryIgnoresListingOrder(a: DiskUsage, b: DiskUsage, maxItems: int)
    requires DistinctIds(a) && SameListing(a, b)
    ensures InventoryOf(a, maxItems) == InventoryOf(b, maxItems)
  {
    IdsIdentifyItems(a);
    FilterMapPermutes(a.containers, b.containers, ContainerItemOf);
    SortIsCanonical(AllContainers(a), AllContainers(b), ContainerKey);
    forall i | i in b.images ensures ImageItemOf(a.containers)(i) == ImageItemOf(b.containers)(i) {
      ImageItemIgnoresOrder(a.containers, b.containers, i);
    }
    FilterMapSameFunction(b.images, ImageItemOf(a.containers), ImageItemOf(b.containers));
    FilterMapPermutes(a.images, b.images, ImageItemOf(a.containers));
    SortIsCanonical(AllImages(a), AllImages(b), ImageKey);
  }

  /** `kept` and `cut` make up `all`, and nothing kept is above anything cut. */
  ghost predicate CutFrom<T(!new)>(kept: seq<T>, cut: seq<T>, all: seq<T>, key: T -> string) {
    && multiset(kept + cut) == multiset(all)
    && forall i, j :: 0 <= i < |kept| && 0 <= j < |cut| ==> StringLe(key(kept[i]), key(cut[j]))
  }

  /** `kept` is the sorted list of the smallest `limit` of `all`. */
  ghost predicate SmallestOf<T(!new)>(kept: seq<T>, all: seq<T>, limit: nat, key: T -> string) {
    && SortedBy(kept, key)
    && |kept| == (if |all| > limit then limit else |all|)
    && exists cut: seq<T> :: CutFrom(kept, cut, all, key)
  }

  lemma SortedSplits<T(!new)>(sorted: seq<T>, n: nat, key: T -> string)
    requires SortedBy(sorted, key) && n <= |sorted|
    ensures SortedBy(sorted[..n], key) && CutFrom(sorted[..n], sorted[n..], sorted, key)
  {
    var kept, cut := sorted[..n], sorted[n..];
    assert sorted == kept + cut;
    forall i, j | 0 <= i < |kept| && 0 <= j < |cut| ensures StringLe(key(kept[i]), key(cut[j])) {
      assert kept[i] == sorted[i] && cut[j] == sorted[n + j];
    }
  }

  lemma TakeKeepsTheSmallest<T(!new)>(all: seq<T>, sorted: seq<T>, limit: nat, key: T -> string)
    requires SortedBy(sorted, key) && multiset(sorted) == multiset(all)
    ensures SmallestOf(Take(sorted, limit), all, limit, key)
  {
    assert |sorted| == |multiset(sorted)| == |multiset(all)| == |all|;
    var n := if |sorted| > limit then limit else |sorted|;
    SortedSplits(sorted, n, key);
    assert Take(sorted, limit) == sorted[..n];
    assert CutFrom(sorted[..n], sorted[n..], all, key);
  }

  /** Smallest ids in order, true totals, complete exactly when nothing was cut. */
  lemma InventoryIsBoundedAndHonest(du: DiskUsage, maxItems: int)
    ensures var inv := InventoryOf(du, maxItems);
            var limit := NonNegative(maxItems);
            && SmallestOf(inv.images, AllImages(du), limit, ImageKey)
            && SmallestOf(inv.containers, AllContainers(du), limit, ContainerKey)
            && inv.imageCount == |AllImages(du)| && inv.containerCount == |AllContainers(du)|
            && (inv.complete <==> |inv.images| == inv.imageCount && |inv.containers| == inv.containerCount)
  {
    SortBySorts(AllImages(du), ImageKey);
    SortBySorts(AllContainers(du), ContainerKey);
    TakeKeepsTheSmallest(AllImages(du), SortBy(AllImages(du), ImageKey), NonNegative(maxItems), ImageKey);
    TakeKeepsTheSmallest(AllContainers(du), SortBy(AllContainers(du), ContainerKey), NonNegative(maxItems), ContainerKey);
  }

  lemma InUseMeansARunningItem(cs: seq<Option<Container>>, id: string)
    requires id != ""
    ensures InUse(cs, id) <==> exists c :: c in FilterMap(cs, ContainerItemOf) && c.imageId == id && c.state == "running"
  {
    var f := ContainerItemOf;
    FilterMapMembers(cs, f);
    if InUse(cs, id) {
      var k :| 0 <= k < |cs| && UserOf(id)(cs[k]).Some? && cs[k].value.state == "running";
      var c := f(cs[k]).value;
      assert cs[k] in cs && f(cs[k]) == Some(c);
      assert c in FilterMap(cs, ContainerItemOf) && c.imageId == id && c.state == "running";
    }
    if c: ContainerItem :| c in FilterMap(cs, ContainerItemOf) && c.imageId == id && c.state == "running" {
      var x :| x in cs && f(x) == Some(c);
      var k :| 0 <= k < |cs| && cs[k] == x;
      assert UserOf(id)(cs[k]).Some?;
    }
  }

  /** An image's users and running mark come from every container, also when the container list is cut. */
  lemma ReferencesSurviveTheCut(du: DiskUsage, maxItems: int, item: ImageItem)
    requires item in InventoryOf(du, maxItems).images
    ensures item.id != ""
    ensures multiset(item.containerIds) == multiset(FilterMap(du.containers, UserOf(item.id)))
    ensures item.inUseByRunning <==>
              exists c :: c in AllContainers(du) && c.imageId == item.id && c.state == "running"
  {
    SortBySorts(AllImages(du), ImageKey);
    var sorted := SortBy(AllImages(du), ImageKey);
    assert item in sorted && item in multiset(sorted);
    var f := ImageItemOf(du.containers);
    FilterMapMembers(du.images, f);
    var i :| i in du.images && f(i) == Some(item);
    SortBySorts(FilterMap(du.containers, UserOf(item.id)), Self);
    InUseMeansARunningItem(du.containers, item.id);
  }
}
