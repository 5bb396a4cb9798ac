/** A snapshot of the Docker host as /system/df reports it: entries may be nil. */
module DockerArtifacts {
  import opened Wrappers

  datatype Container = Container(id: string, names: seq<string>, state: string, imageId: string, imageRef: string,
                                 sizeRw: int, labels: map<string, string>)
  datatype Image = Image(id: string, repoTags: seq<string>, repoDigests: seq<string>, size: int, created: int,
                         labels: map<string, string>)
  datatype CacheEntry = CacheEntry(inUse: bool, size: int)

  datatype DiskUsage = DiskUsage(containers: seq<Option<Container>>, images: seq<Option<Image>>,
                                 cache: seq<Option<CacheEntry>>)

  datatype Ownership = Ownership(managed: bool, prospectivelyOwned: bool, ownershipVersion: string,
                                 artifactType: string, deploymentId: string, serviceId: string,
                                 serviceSlug: string, projectId: string, retentionCanaryId: string)

  /** A missing label reads as the empty string. */
  function Label(labels: map<string, string>, name: string): string {
    if name in labels then labels[name] else ""
  }

  function OwnershipFromLabels(labels: map<string, string>, imageArtifact: bool): Ownership {
    var kind := Label(labels, "clank.artifact_type");
    var managed := Label(labels, "clank.managed") == "true";
    var version := Label(labels, "clank.ownership_version");
    var deployment := Label(labels, "clank.deployment_id");
    var slug := Label(labels, "clank.service_slug");
    var validType := if imageArtifact then kind == "service_image" || kind == "preview_image" else kind == "service_container";
    Ownership(managed, managed && version == "1" && validType && deployment != "" && slug != "", version, kind,
              deployment, Label(labels, "clank.service_id"), slug, Label(labels, "clank.project_id"),
              Label(labels, "clank.retention_canary_id"))
  }

  /** The label has exactly this value. */
  predicate Says(labels: map<string, string>, name: string, value: string) {
    name in labels && labels[name] == value
  }

  /** An artifact counts as the platform's own exactly when it is marked managed, in ownership version 1, of
      a type that fits a container or an image, and names its deployment and service. */
  lemma OwnedExactlyWhen(labels: map<string, string>, imageArtifact: bool)
    ensures var o := OwnershipFromLabels(labels, imageArtifact);
            && (o.managed <==> Says(labels, "clank.managed", "true"))
            && (o.prospectivelyOwned <==>
                  && Says(labels, "clank.managed", "true") && Says(labels, "clank.ownership_version", "1")
                  && (if imageArtifact
                      then Says(labels, "clank.artifact_type", "service_image") || Says(labels, "clank.artifact_type", "preview_image")
                      else Says(labels, "clank.artifact_type", "service_container"))
                  && "clank.deployment_id" in labels && !Says(labels, "clank.deployment_id", "")
                  && "clank.service_slug" in labels && !Says(labels, "clank.service_slug", ""))
  {
  }

  /** The other fields are the labels of their names, empty where there is none. */
  lemma OwnershipKeepsLabels(labels: map<string, string>, imageArtifact: bool)
    ensures var o := OwnershipFromLabels(labels, imageArtifact);
            && ("clank.ownership_version" in labels ==> o.ownershipVersion == labels["clank.ownership_version"])
            && ("clank.artifact_type" in labels ==> o.artifactType == labels["clank.artifact_type"])
            && ("clank.deployment_id" in labels ==> o.deploymentId == labels["clank.deployment_id"])
            && ("clank.service_id" in labels ==> o.serviceId == labels["clank.service_id"])
            && ("clank.service_slug" in labels ==> o.serviceSlug == labels["clank.service_slug"])
            && ("clank.project_id" in labels ==> o.projectId == labels["clank.project_id"])
            && ("clank.retention_canary_id" in labels ==> o.retentionCanaryId == labels["clank.retention_canary_id"])
    ensures labels == map[] ==>
              OwnershipFromLabels(labels, imageArtifact) == Ownership(false, false, "", "", "", "", "", "", "")
  {
  }

  function NonNegative(n: int): nat {
    if n < 0 then 0 else n
  }

  /** Some running container, with or without an id, uses the image. */
  ghost predicate UsedByRunning(cs: seq<Option<Container>>, imageId: string) {
    imageId != "" && exists c :: c in cs && c.Some? && c.value.state == "running" && c.value.imageId == imageId
  }
}
