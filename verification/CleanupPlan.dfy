/** computeCleanupPlan of internal/docker/client.go: what a cleanup of the host could reclaim. */
module CleanupPlans {
  import opened Wrappers
  import opened Sums
  import opened Sorting
  import opened DockerArtifacts
  import opened Inventories

  const INVENTORY_MAX_ITEMS := 2000

  datatype Artifact = Artifact(id: string, bytes: int)

  datatype Plan = Plan(protectedRefs: seq<string>, stopped: seq<Artifact>, stoppedBytes: nat,
                       unused: seq<Artifact>, unusedBytes: nat, danglingCount: nat, danglingBytes: nat,
                       cacheCount: nat, cacheBytes: nat, reclaimable: nat, inventory: Inventory)

  // ---------- specification ----------

  function StoppedOf(c: Option<Container>): Option<Artifact> {
    if c.Some? && c.value.state != "running" && c.value.id != "" then Some(Artifact(c.value.id, c.value.sizeRw)) else None
  }

  function StoppedSize(c: Option<Container>): nat {
    if c.Some? && c.value.state != "running" then NonNegative(c.value.sizeRw) else 0
  }

  function TagOf(tag: string): Option<string> {
    if tag != "" && tag != "<none>:<none>" then Some(tag) else None
  }

  function DigestOf(digest: string): Option<string> {
    if digest != "" && digest != "<none>@<none>" then Some(digest) else None
  }

  /** The usable references of an image, tags first. */
  function Refs(i: Image): seq<string> {
    FilterMap(i.repoTags, TagOf) + FilterMap(i.repoDigests, DigestOf)
  }

  predicate SomeProtected(refs: seq<string>, protectedRefs: seq<string>) {
    exists k :: 0 <= k < |refs| && refs[k] in protectedRefs
  }

  datatype Class = Nil | InUseByRunning | Untagged | Shielded | Unused

  ghost function ClassOf(cs: seq<Option<Container>>, protectedRefs: seq<string>, i: Option<Image>): Class {
    if i.None? then Nil
    else if UsedByRunning(cs, i.value.id) then InUseByRunning
    else if Refs(i.value) == [] then Untagged
    else if SomeProtected(Refs(i.value), protectedRefs) then Shielded
    else Unused
  }

  ghost function Classes(cs: seq<Option<Container>>, protectedRefs: seq<string>, images: seq<Option<Image>>): (r: seq<Class>)
    ensures |r| == |images|
    ensures forall k :: 0 <= k < |images| ==> r[k] == ClassOf(cs, protectedRefs, images[k])
  {
    seq(|images|, k requires 0 <= k < |images| => ClassOf(cs, protectedRefs, images[k]))
  }

  /** How many images have the class, and the sum of their positive sizes. */
  ghost function CountOf(classes: seq<Class>, c: Class): nat {
    if classes == [] then 0
    else CountOf(classes[..|classes| - 1], c) + if classes[|classes| - 1] == c then 1 else 0
  }

  ghost function BytesOf(images: seq<Option<Image>>, classes: seq<Class>, c: Class): nat
    requires |classes| == |images|
  {
    if images == [] then 0
    else
      var last := |images| - 1;
      BytesOf(images[..last], classes[..last], c) +
      if classes[last] == c && images[last].Some? then NonNegative(images[last].value.size) else 0
  }

  /** One entry, named by its first reference, for each unused image. */
  ghost function UnusedOf(images: seq<Option<Image>>, classes: seq<Class>): seq<Artifact>
    requires |classes| == |images|
  {
    if images == [] then []
    else
      var last := |images| - 1;
      UnusedOf(images[..last], classes[..last]) +
      if classes[last] == Unused && images[last].Some? && Refs(images[last].value) != []
      then [Artifact(Refs(images[last].value)[0], images[last].value.size)] else []
  }

  function IdleCount(e: Option<CacheEntry>): nat {
    if e.Some? && !e.value.inUse then 1 else 0
  }

  function IdleSize(e: Option<CacheEntry>): nat {
    if e.Some? && !e.value.inUse then NonNegative(e.value.size) else 0
  }

  ghost predicate IsPlan(p: Plan, protectedRefs: seq<string>, du: DiskUsage) {
    var classes := Classes(du.containers, protectedRefs, du.images);
    && SortedBy(p.protectedRefs, Self)
    && (forall i, j :: 0 <= i < j < |p.protectedRefs| ==> p.protectedRefs[i] != p.protectedRefs[j])
    && (forall r :: r in p.protectedRefs <==> r in protectedRefs && r != "")
    && p.stopped == FilterMap(du.containers, StoppedOf)
    && p.stoppedBytes == Total(du.containers, StoppedSize)
    && p.unused == UnusedOf(du.images, classes)
    && p.unusedBytes == BytesOf(du.images, classes, Unused)
    && p.danglingCount == CountOf(classes, Untagged)
    && p.danglingBytes == BytesOf(du.images, classes, Untagged)
    && p.cacheCount == Total(du.cache, IdleCount)
    && p.cacheBytes == Total(du.cache, IdleSize)
    && p.reclaimable == p.stoppedBytes + p.unusedBytes + p.cacheBytes + p.danglingBytes
    && p.inventory == InventoryOf(du, INVENTORY_MAX_ITEMS)
  }

  // ---------- the loops ----------

  lemma RunningSnoc(cs: seq<Option<Container>>, c: Option<Container>, id: string)
    ensures UsedByRunning(cs + [c], id) <==>
              UsedByRunning(cs, id) || (id != "" && c.Some? && c.value.state == "running" && c.value.imageId == id)
  {
    assert forall x :: x in cs + [c] <==> x in cs || x == c;
    if id != "" && c.Some? && c.value.state == "running" && c.value.imageId == id {
      assert c in cs + [c];
    }
  }

  method SurveyContainers(cs: seq<Option<Container>>)
    returns (runningImageIds: set<string>, stopped: seq<Artifact>, stoppedBytes: nat)
    ensures forall id :: id in runningImageIds <==> UsedByRunning(cs, id)
    ensures stopped == FilterMap(cs, StoppedOf) && stoppedBytes == Total(cs, StoppedSize)
  {
    runningImageIds, stopped, stoppedBytes := {}, [], 0;
    for k := 0 to |cs|
      invariant forall id :: id in runningImageIds <==> UsedByRunning(cs[..k], id)
      invariant stopped == FilterMap(cs[..k], StoppedOf) && stoppedBytes == Total(cs[..k], StoppedSize)
    {
      var c := cs[k];
      assert cs[..k + 1] == cs[..k] + [c];
      forall id { RunningSnoc(cs[..k], c, id); }
      FilterMapSnoc(cs[..k], c, StoppedOf);
      TotalAppend(cs[..k], StoppedSize, c);
      if c.None? { continue; }
      if c.value.state == "running" {
        if c.value.imageId != "" {
          runningImageIds := runningImageIds + {c.value.imageId};
        }
        continue;
      }
      if c.value.id != "" {
        stopped := stopped + [Artifact(c.value.id, c.value.sizeRw)];
      }
      if c.value.sizeRw > 0 {
        stoppedBytes := stoppedBytes + c.value.sizeRw;
      }
    }
    assert cs[..|cs|] == cs;
  }

  method CollectRefs(i: Image) returns (refs: seq<string>)
    ensures refs == Refs(i)
  {
    refs := [];
    for k := 0 to |i.repoTags|
      invariant refs == FilterMap(i.repoTags[..k], TagOf)
    {
      var tag := i.repoTags[k];
      assert i.repoTags[..k + 1] == i.repoTags[..k] + [tag];
      FilterMapSnoc(i.repoTags[..k], tag, TagOf);
      if tag != "" && tag != "<none>:<none>" { refs := refs + [tag]; }
    }
    assert i.repoTags[..|i.repoTags|] == i.repoTags;
    ghost var tags := refs;
    for k := 0 to |i.repoDigests|
      invariant refs == tags + FilterMap(i.repoDigests[..k], DigestOf)
    {
      var digest := i.repoDigests[k];
      assert i.repoDigests[..k + 1] == i.repoDigests[..k] + [digest];
      FilterMapSnoc(i.repoDigests[..k], digest, DigestOf);
      if digest != "" && digest != "<none>@<none>" { refs := refs + [digest]; }
    }
    assert i.repoDigests[..|i.repoDigests|] == i.repoDigests;
  }

  /** No usable reference is empty, so an empty protected reference protects nothing. */
  lemma RefsAreNotEmpty(i: Image, k: nat)
    requires k < |Refs(i)|
    ensures Refs(i)[k] != ""
  {
    FilterMapMembers(i.repoTags, TagOf);
    FilterMapMembers(i.repoDigests, DigestOf);
    var tags := FilterMap(i.repoTags, TagOf);
    if k < |tags| { assert Refs(i)[k] in tags; } else { assert Refs(i)[k] in FilterMap(i.repoDigests, DigestOf); }
  }

  method IsProtected(refs: seq<string>, protectedSet: set<string>) returns (skip: bool)
    ensures skip <==> exists k :: 0 <= k < |refs| && refs[k] in protectedSet
  {
    skip := false;
    for k := 0 to |refs|
      invariant !skip
      invariant forall j :: 0 <= j < k ==> refs[j] !in protectedSet
    {
      if refs[k] in protectedSet {
        skip := true;
        break;
      }
    }
  }

  lemma ClassesSnoc(cs: seq<Option<Container>>, protectedRefs: seq<string>, images: seq<Option<Image>>, i: Option<Image>)
    ensures Classes(cs, protectedRefs, images + [i]) == Classes(cs, protectedRefs, images) + [ClassOf(cs, protectedRefs, i)]
  {
  }

  lemma TalliesSnoc(images: seq<Option<Image>>, classes: seq<Class>, i: Option<Image>, c: Class, of: Class)
    requires |classes| == |images|
    ensures CountOf(classes + [c], of) == CountOf(classes, of) + if c == of then 1 else 0
    ensures BytesOf(images + [i], classes + [c], of) ==
              BytesOf(images, classes, of) + if c == of && i.Some? then NonNegative(i.value.size) else 0
    ensures UnusedOf(images + [i], classes + [c]) ==
              UnusedOf(images, classes) +
              if c == Unused && i.Some? && Refs(i.value) != [] then [Artifact(Refs(i.value)[0], i.value.size)] else []
  {
    assert (images + [i])[..|images|] == images && (classes + [c])[..|classes|] == classes;
  }

  /** The branches of the loop over images: which class an image falls in. */
  method Classify(img: Option<Image>, ghost cs: seq<Option<Container>>, ghost protectedRefs: seq<string>,
                  runningImageIds: set<string>, protectedSet: set<string>)
    returns (c: Class, refs: seq<string>)
    requires forall id :: id in runningImageIds <==> UsedByRunning(cs, id)
    requires forall r :: r in protectedSet <==> r in protectedRefs && r != ""
    ensures c == ClassOf(cs, protectedRefs, img)
    ensures c.Unused? ==> img.Some? && refs == Refs(img.value) && refs != []
  {
    refs := [];
    if img.None? { return Nil, refs; }
    if img.value.id in runningImageIds { return InUseByRunning, refs; }
    refs := CollectRefs(img.value);
    if |refs| == 0 { return Untagged, refs; }
    var skip := IsProtected(refs, protectedSet);
    assert skip <==> SomeProtected(refs, protectedRefs) by {
      forall j | 0 <= j < |refs| ensures refs[j] != "" { RefsAreNotEmpty(img.value, j); }
    }
    return if skip then Shielded else Unused, refs;
  }

  method SurveyImages(images: seq<Option<Image>>, ghost cs: seq<Option<Container>>, ghost protectedRefs: seq<string>,
                      runningImageIds: set<string>, protectedSet: set<string>)
    returns (unused: seq<Artifact>, unusedBytes: nat, danglingCount: nat, danglingBytes: nat)
    requires forall id :: id in runningImageIds <==> UsedByRunning(cs, id)
    requires forall r :: r in protectedSet <==> r in protectedRefs && r != ""
    ensures var classes := Classes(cs, protectedRefs, images);
            && unused == UnusedOf(images, classes) && unusedBytes == BytesOf(images, classes, Unused)
            && danglingCount == CountOf(classes, Untagged) && danglingBytes == BytesOf(images, classes, Untagged)
  {
    unused, unusedBytes, danglingCount, danglingBytes := [], 0, 0, 0;
    ghost var done: seq<Option<Image>>, classes: seq<Class> := [], [];
    for k := 0 to |images|
      invariant done == images[..k] && classes == Classes(cs, protectedRefs, done)
      invariant unused == UnusedOf(done, classes) && unusedBytes == BytesOf(done, classes, Unused)
      invariant danglingCount == CountOf(classes, Untagged) && danglingBytes == BytesOf(done, classes, Untagged)
    {
      var img := images[k];
      var c, refs := Classify(img, cs, protectedRefs, runningImageIds, protectedSet);
      ClassesSnoc(cs, protectedRefs, done, img);
      TalliesSnoc(done, classes, img, c, Unused);
      TalliesSnoc(done, classes, img, c, Untagged);
      done, classes := done + [img], classes + [c];
      if c.Untagged? {
        danglingCount := danglingCount + 1;
        if img.value.size > 0 { danglingBytes := danglingBytes + img.value.size; }
      } else if c.Unused? {
        unused := unused + [Artifact(refs[0], img.value.size)];
        if img.value.size > 0 { unusedBytes := unusedBytes + img.value.size; }
      }
    }
    assert images[..|images|] == images;
  }

  method SurveyCache(cache: seq<Option<CacheEntry>>) returns (count: nat, bytes: nat)
    ensures count == Total(cache, IdleCount) && bytes == Total(cache, IdleSize)
  {
    count, bytes := 0, 0;
    for k := 0 to |cache|
      invariant count == Total(cache[..k], IdleCount) && bytes == Total(cache[..k], IdleSize)
    {
      var entry := cache[k];
      assert cache[..k + 1] == cache[..k] + [entry];
      TotalAppend(cache[..k], IdleCount, entry);
      TotalAppend(cache[..k], IdleSize, entry);
      if entry.None? || entry.value.inUse { continue; }
      count := count + 1;
      if entry.value.size > 0 { bytes := bytes + entry.value.size; }
    }
    assert cache[..|cache|] == cache;
  }

  /** sortedKeys: whatever order the map gives its keys in. */
  method SortedKeys(values: set<string>) returns (keys: seq<string>)
    ensures SortedBy(keys, Self) && multiset(keys) == multiset(values)
  {
    keys := [];
    var rest := values;
    while rest != {}
      invariant rest <= values && multiset(keys) == multiset(values - rest)
      decreases |rest|
    {
      var key :| key in rest;
      assert values - (rest - {key}) == (values - rest) + {key};
      keys := keys + [key];
      rest := rest - {key};
    }
    assert values - rest == values;
    SortBySorts(keys, Self);
    keys := SortStrings(keys);
  }

  method ComputeCleanupPlan(protectedImageRefs: seq<string>, usage: Option<DiskUsage>) returns (plan: Option<Plan>)
    ensures plan.Some? <==> usage.Some?
    ensures plan.Some? ==> IsPlan(plan.value, protectedImageRefs, usage.value)
  {
    var protectedSet: set<string> := {};
    for k := 0 to |protectedImageRefs|
      invariant forall r :: r in protectedSet <==> r in protectedImageRefs[..k] && r != ""
    {
      if protectedImageRefs[k] != "" { protectedSet := protectedSet + {protectedImageRefs[k]}; }
    }
    assert protectedImageRefs[..|protectedImageRefs|] == protectedImageRefs;
    if usage.None? { return None; }
    var du := usage.value;
    var runningImageIds, stopped, stoppedBytes := SurveyContainers(du.containers);
    var unused, unusedBytes, danglingCount, danglingBytes :=
      SurveyImages(du.images, du.containers, protectedImageRefs, runningImageIds, protectedSet);
    var cacheCount, cacheBytes := SurveyCache(du.cache);
    var refs := SortedKeys(protectedSet);
    KeysOf(refs, protectedSet);
    var inventory := BuildDockerArtifactInventory(du, INVENTORY_MAX_ITEMS);
    return Some(Plan(refs, stopped, stoppedBytes, unused, unusedBytes, danglingCount, danglingBytes, cacheCount, cacheBytes,
                     stoppedBytes + unusedBytes + cacheBytes + danglingBytes, inventory));
  }

  lemma KeysOf(keys: seq<string>, values: set<string>)
    requires multiset(keys) == multiset(values)
    ensures forall r :: r in keys <==> r in values
    ensures forall i, j :: 0 <= i < j < |keys| ==> keys[i] != keys[j]
  {
    forall r ensures r in keys <==> r in values { assert r in multiset(keys) <==> r in multiset(values); }
    forall i, j | 0 <= i < j < |keys| ensures keys[i] != keys[j] {
      var before, between, after := keys[..i], keys[i + 1..j], keys[j + 1..];
      assert keys == before + [keys[i]] + between + [keys[j]] + after;
      assert multiset(keys) == multiset(before) + multiset{keys[i]} + multiset(between) + multiset{keys[j]} + multiset(after);
      assert multiset(values)[keys[i]] <= 1;
    }
  }

  // ---------- what the plan says ----------

  lemma {:induction false} CountsPartition(images: seq<Option<Image>>, classes: seq<Class>)
    requires |classes| == |images|
    ensures CountOf(classes, Nil) + CountOf(classes, InUseByRunning) + CountOf(classes, Untagged) +
            CountOf(classes, Shielded) + CountOf(classes, Unused) == |images|
  {
    if images != [] { CountsPartition(images[..|images| - 1], classes[..|images| - 1]); }
  }

  lemma {:induction false} OneEntryEach(images: seq<Option<Image>>, classes: seq<Class>)
    requires |classes| == |images|
    requires forall k :: 0 <= k < |images| && classes[k] == Unused ==> images[k].Some? && Refs(images[k].value) != []
    ensures |UnusedOf(images, classes)| == CountOf(classes, Unused)
  {
    if images != [] { OneEntryEach(images[..|images| - 1], classes[..|images| - 1]); }
  }

  /** The five classes, of which every listed image has one, add up to the listing, and the plan's two
      counts are those of the untagged and the unused. */
  lemma PlanIsAPartition(p: Plan, protectedRefs: seq<string>, du: DiskUsage)
    requires IsPlan(p, protectedRefs, du)
    ensures var classes := Classes(du.containers, protectedRefs, du.images);
            |du.images| == CountOf(classes, Nil) + CountOf(classes, InUseByRunning) + CountOf(classes, Shielded) +
                           p.danglingCount + |p.unused|
  {
    CountsPartition(du.images, Classes(du.containers, protectedRefs, du.images));
    OneEntryEach(du.images, Classes(du.containers, protectedRefs, du.images));
  }

  /** The plan in terms of the snapshot: the stopped containers are those with an id that do not run; the
      usable references of an image are its tags and digests but the empty and the <none> ones; and the
      inventory is cut at two thousand items. */
  lemma PlanListsTheSnapshot(p: Plan, protectedRefs: seq<string>, du: DiskUsage, a: Artifact, i: Image, ref: string)
    requires IsPlan(p, protectedRefs, du)
    ensures a in p.stopped <==>
              exists c :: c in du.containers && c.Some? && c.value.state != "running" && c.value.id != ""
                && a == Artifact(c.value.id, c.value.sizeRw)
    ensures ref in Refs(i) <==>
              (ref in i.repoTags && ref != "" && ref != "<none>:<none>") ||
              (ref in i.repoDigests && ref != "" && ref != "<none>@<none>")
    ensures |p.inventory.images| <= 2000 && |p.inventory.containers| <= 2000
    ensures p.inventory.complete <==> |AllImages(du)| <= 2000 && |AllContainers(du)| <= 2000
  {
    FilterMapMembers(du.containers, StoppedOf);
    FilterMapMembers(i.repoTags, TagOf);
    FilterMapMembers(i.repoDigests, DigestOf);
    SortBySorts(AllImages(du), ImageKey);
    SortBySorts(AllContainers(du), ContainerKey);
    var tags, digests := FilterMap(i.repoTags, TagOf), FilterMap(i.repoDigests, DigestOf);
    assert ref in Refs(i) <==> ref in tags || ref in digests;
  }

  /** The sums of the plan: positive sizes of the containers that do not run, positive sizes and number of
      the cache entries that are not in use. */
  lemma PlanAddsUp(p: Plan, protectedRefs: seq<string>, du: DiskUsage, stopped: Option<Container> -> nat,
                   idle: Option<CacheEntry> -> nat, one: Option<CacheEntry> -> nat)
    requires IsPlan(p, protectedRefs, du)
    requires forall c :: stopped(c) == if c.Some? && c.value.state != "running" && c.value.sizeRw > 0 then c.value.sizeRw else 0
    requires forall e :: idle(e) == if e.Some? && !e.value.inUse && e.value.size > 0 then e.value.size else 0
    requires forall e :: one(e) == if e.Some? && !e.value.inUse then 1 else 0
    ensures p.stoppedBytes == Total(du.containers, stopped)
    ensures p.cacheBytes == Total(du.cache, idle) && p.cacheCount == Total(du.cache, one)
  {
    TotalSame(du.containers, StoppedSize, stopped);
    TotalSame(du.cache, IdleSize, idle);
    TotalSame(du.cache, IdleCount, one);
  }

  /** The image of an unused entry. */
  ghost predicate Names(a: Artifact, i: Option<Image>) {
    i.Some? && Refs(i.value) != [] && a == Artifact(Refs(i.value)[0], i.value.size)
  }

  lemma {:induction false} UnusedComesFrom(images: seq<Option<Image>>, classes: seq<Class>, a: Artifact)
    requires |classes| == |images| && a in UnusedOf(images, classes)
    ensures exists k :: 0 <= k < |images| && classes[k] == Unused && Names(a, images[k])
  {
    var last := |images| - 1;
    if a in UnusedOf(images[..last], classes[..last]) {
      UnusedComesFrom(images[..last], classes[..last], a);
      var k :| 0 <= k < last && classes[..last][k] == Unused && Names(a, images[..last][k]);
      assert classes[k] == Unused && Names(a, images[k]);
    } else {
      assert classes[last] == Unused && Names(a, images[last]);
    }
  }

  /** An image without a running user is not marked in use by any item of the inventory. */
  lemma NotMarkedInUse(du: DiskUsage, maxItems: int, item: ImageItem)
    requires item in InventoryOf(du, maxItems).images && !UsedByRunning(du.containers, item.id)
    ensures !item.inUseByRunning
  {
    ReferencesSurviveTheCut(du, maxItems, item);
    InUseMeansARunningItem(du.containers, item.id);
    InventoryUseIsPlanUse(du.containers, item.id);
  }

  /** No item of the inventory marks the image in use. */
  ghost predicate Unmarked(inventory: Inventory, imageId: string) {
    forall item :: item in inventory.images && item.id == imageId ==> !item.inUseByRunning
  }

  /** No unused entry has a protected reference or a running user, and the inventory of the same
      snapshot does not mark its image in use. */
  lemma UnusedEntriesAreUnused(p: Plan, protectedRefs: seq<string>, du: DiskUsage, a: Artifact)
    requires IsPlan(p, protectedRefs, du) && a in p.unused
    ensures a.id !in protectedRefs
    ensures exists i :: i in du.images && Names(a, i) && !UsedByRunning(du.containers, i.value.id)
              && !SomeProtected(Refs(i.value), protectedRefs)
              && Unmarked(p.inventory, i.value.id)
  {
    var classes := Classes(du.containers, protectedRefs, du.images);
    UnusedComesFrom(du.images, classes, a);
    var k :| 0 <= k < |du.images| && classes[k] == Unused && Names(a, du.images[k]);
    var i := du.images[k];
    forall item | item in p.inventory.images && item.id == i.value.id ensures !item.inUseByRunning {
      NotMarkedInUse(du, INVENTORY_MAX_ITEMS, item);
    }
    assert i in du.images && Names(a, i);
  }

  /** A running container that has lost its id. */
  ghost predicate UsedByNameless(cs: seq<Option<Container>>, imageId: string) {
    imageId != "" && exists c :: c in cs && c.Some? && c.value.state == "running" && c.value.imageId == imageId && c.value.id == ""
  }

  /** The two passes over one snapshot agree on which images are running, except for images whose
      only running containers have no id: those the plan spares and the inventory does not mark. */
  lemma InventoryUseIsPlanUse(cs: seq<Option<Container>>, imageId: string)
    ensures UsedByRunning(cs, imageId) <==> InUse(cs, imageId) || UsedByNameless(cs, imageId)
  {
    if InUse(cs, imageId) {
      var k :| 0 <= k < |cs| && UserOf(imageId)(cs[k]).Some? && cs[k].value.state == "running";
      assert cs[k] in cs;
    }
    if UsedByRunning(cs, imageId) && !UsedByNameless(cs, imageId) {
      var c :| c in cs && c.Some? && c.value.state == "running" && c.value.imageId == imageId;
      var k :| 0 <= k < |cs| && cs[k] == c;
      assert UserOf(imageId)(cs[k]).Some?;
    }
  }
}
