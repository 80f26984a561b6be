/** Image metadata: resolving the images of a template against a registry and pinning them to digests. */
module Images {
  import opened Wrappers
  import opened Text
  import opened Sorting
  import opened Core

  // ----- image references -----

  datatype Reference =
    | TagReference(repository: string, tag: string)
    | DigestReference(repository: string, digest: string)

  /** ref.Name(): the full text of a reference. */
  function Name(r: Reference): string {
    match r
    case TagReference(repository, tag) => repository + ":" + tag
    case DigestReference(repository, digest) => repository + "@" + digest
  }

  /** The parsers of the reference library under weak validation. */
  datatype NameLibrary = NameLibrary(newDigest: string -> Option<Reference>, newTag: string -> Option<Reference>)

  predicate IsHex(c: char) {
    '0' <= c <= '9' || 'a' <= c <= 'f'
  }

  /** A sha256 digest in its text form. */
  predicate IsDigest(d: string) {
    |d| == 71 && d[..7] == "sha256:" && forall i | 7 <= i < 71 :: IsHex(d[i])
  }

  /** What the model assumes of the library: the text of a digest reference parses back to it,
      and a digest put behind a tag reference names that repository and digest. */
  ghost predicate Lawful(names: NameLibrary) {
    && (forall s | names.newDigest(s).Some? ::
          var r := names.newDigest(s).value;
          r.DigestReference? && names.newDigest(Name(r)) == Some(r))
    && (forall s, d | names.newTag(s).Some? && IsDigest(d) ::
          var r := names.newTag(s).value;
          r.TagReference? && names.newDigest(Name(r) + "@" + d) == Some(DigestReference(r.repository, d)))
  }

  // A small library that meets the assumptions, so that they are not contradictory.

  function Head(s: string, c: char): string {
    if s == "" || s[0] == c then "" else [s[0]] + Head(s[1..], c)
  }

  function Tail(s: string, c: char): string {
    if s == "" then "" else if s[0] == c then s[1..] else Tail(s[1..], c)
  }

  function SampleDigest(s: string): Option<Reference> {
    if IsDigest(Tail(s, '@')) then Some(DigestReference(Head(Head(s, '@'), ':'), Tail(s, '@'))) else None
  }

  function SampleTag(s: string): Option<Reference> {
    if '@' !in s then Some(TagReference(Head(s, ':'), Tail(s, ':'))) else None
  }

  lemma {:induction false} HeadFacts(s: string, c: char)
    ensures c !in Head(s, c)
    ensures forall x | x in Head(s, c) || x in Tail(s, c) :: x in s
  {
    if s != "" && s[0] != c {
      HeadFacts(s[1..], c);
    }
  }

  lemma {:induction false} CutAt(head: string, c: char, tail: string)
    requires c !in head
    ensures Head(head + [c] + tail, c) == head && Tail(head + [c] + tail, c) == tail
    ensures Head(head, c) == head
  {
    var s := head + [c] + tail;
    if head == "" {
      assert s[1..] == tail;
    } else {
      assert s[1..] == head[1..] + [c] + tail;
      assert head == [head[0]] + head[1..];
      CutAt(head[1..], c, tail);
    }
  }

  lemma SampleLibraryIsLawful()
    ensures Lawful(NameLibrary(SampleDigest, SampleTag))
  {
    forall s | SampleDigest(s).Some? ensures SampleDigest(Name(SampleDigest(s).value)) == SampleDigest(s) {
      var r := SampleDigest(s).value;
      HeadFacts(s, '@');
      HeadFacts(Head(s, '@'), ':');
      CutAt(r.repository, '@', r.digest);
      CutAt(r.repository, ':', "");
    }
    forall s, d | SampleTag(s).Some? && IsDigest(d)
      ensures SampleDigest(Name(SampleTag(s).value) + "@" + d)
           == Some(DigestReference(SampleTag(s).value.repository, d))
    {
      var r := SampleTag(s).value;
      HeadFacts(s, ':');
      CutAt(Name(r), '@', d);
      CutAt(r.repository, ':', r.tag);
    }
  }

  /** resolveTagsToDigest: the reference, and whether it names a digest already. */
  function ResolveTagsToDigest(names: NameLibrary, image: string): Option<(Reference, bool)> {
    var digest := names.newDigest(image);
    if digest.Some? then Some((digest.value, true))
    else
      var tag := names.newTag(image);
      if tag.Some? then Some((tag.value, false)) else None
  }

  // ----- one image -----

  datatype Fetched = Fetched(digest: string, config: string, boms: seq<BOM>)

  /** What a registry, as it is during one resolution, serves for a reference. */
  type Registry = Reference -> Option<Fetched>

  ghost predicate ServesDigests(registry: Registry) {
    forall r | registry(r).Some? :: IsDigest(registry(r).value.digest)
  }

  datatype RegistryConfig = RegistryConfig(hasKeys: bool, names: NameLibrary)

  function ResolveImage(rc: RegistryConfig, registry: Registry, image: string): Option<ImageConfig> {
    match ResolveTagsToDigest(rc.names, image)
    case None => None
    case Some((reference, resolved)) =>
      if !rc.hasKeys then None
      else match registry(reference)
        case None => None
        case Some(fetched) =>
          var name := if resolved then Name(reference) else Name(reference) + "@" + fetched.digest;
          Some(ImageConfig(name, fetched.boms, fetched.config))
  }

  /** What an image is looked up by: the digest it names, or else its tag. */
  predicate RefersTo(names: NameLibrary, image: string, r: Reference) {
    names.newDigest(image) == Some(r) || (names.newDigest(image).None? && names.newTag(image) == Some(r))
  }

  /** The entry is what the registry serves for the image; its text is the reference itself, behind
      which the digest that was served is put if it named none. */
  predicate IsServed(names: NameLibrary, registry: Registry, image: string, r: Reference, entry: ImageConfig) {
    && RefersTo(names, image, r)
    && registry(r).Some? && entry.boms == registry(r).value.boms && entry.config == registry(r).value.config
    && entry.image == if names.newDigest(image).Some? then Name(r) else Name(r) + "@" + registry(r).value.digest
  }

  ghost predicate Serves(names: NameLibrary, registry: Registry, image: string, entry: ImageConfig) {
    exists r :: IsServed(names, registry, image, r, entry)
  }

  /** There are keys, the image can be parsed, and the registry knows its own reference. */
  ghost predicate CanBeServed(rc: RegistryConfig, registry: Registry, image: string) {
    rc.hasKeys && exists r :: RefersTo(rc.names, image, r) && registry(r).Some?
  }

  /** An image is resolved, and to what, exactly when there are keys, it can be parsed, and the registry
      serves its own reference. */
  lemma ResolvesTo(rc: RegistryConfig, registry: Registry, image: string, entry: ImageConfig)
    ensures ResolveImage(rc, registry, image) == Some(entry) <==>
              rc.hasKeys && Serves(rc.names, registry, image, entry)
    ensures ResolveImage(rc, registry, image).Some? <==> CanBeServed(rc, registry, image)
  {
    var found := ResolveTagsToDigest(rc.names, image);
    if found.Some? {
      var r := found.value.0;
      assert RefersTo(rc.names, image, r);
      if ResolveImage(rc, registry, image) == Some(entry) {
        assert IsServed(rc.names, registry, image, r, entry);
      }
    }
  }

  /** The repository and digest an image text names, if it is a digest reference. */
  function Pin(names: NameLibrary, image: string): Option<Reference> {
    names.newDigest(image)
  }

  /** A tag is pinned, in its own repository, to the digest that the registry serves for it, which
      follows the tag in the text; and a pinned image keeps its pin whatever the registry says. */
  lemma ResolutionPins(rc: RegistryConfig, registry: Registry, image: string)
    requires Lawful(rc.names) && ServesDigests(registry)
    requires ResolveImage(rc, registry, image).Some?
    ensures var entry := ResolveImage(rc, registry, image).value;
      && Pin(rc.names, entry.image).Some?
      && (Pin(rc.names, image).Some? ==> Pin(rc.names, entry.image) == Pin(rc.names, image))
      && (Pin(rc.names, image).None? ==> exists r ::
            && rc.names.newTag(image) == Some(r) && r.TagReference? && registry(r).Some?
            && entry.image == r.repository + ":" + r.tag + "@" + registry(r).value.digest
            && Pin(rc.names, entry.image) == Some(DigestReference(r.repository, registry(r).value.digest)))
  {
    if Pin(rc.names, image).None? {
      var r := rc.names.newTag(image).value;
      assert r == TagReference(r.repository, r.tag) && IsDigest(registry(r).value.digest);
    }
  }

  // ----- all images of a template -----

  function ImagesOf(t: PodTemplate): set<string> {
    (set c | c in t.initContainers :: c.image) + (set c | c in t.containers :: c.image)
  }

  predicate Resolves(rc: RegistryConfig, registry: Registry, image: string) {
    image == "" || ResolveImage(rc, registry, image).Some?
  }

  predicate AllResolve(rc: RegistryConfig, registry: Registry, t: PodTemplate) {
    forall image | image in ImagesOf(t) :: Resolves(rc, registry, image)
  }

  function ResolvedText(rc: RegistryConfig, registry: Registry, image: string): string {
    if image == "" then ""
    else
      var r := ResolveImage(rc, registry, image);
      if r.Some? then r.value.image else image
  }

  function PinContainers(rc: RegistryConfig, registry: Registry, cs: seq<Container>): (r: seq<Container>)
    ensures |r| == |cs|
    ensures forall i | 0 <= i < |cs| :: r[i] == cs[i].(image := ResolvedText(rc, registry, cs[i].image))
  {
    seq(|cs|, i requires 0 <= i < |cs| => cs[i].(image := ResolvedText(rc, registry, cs[i].image)))
  }

  /** The template with every image replaced by its own resolution, all at once. */
  function PinTemplate(rc: RegistryConfig, registry: Registry, t: PodTemplate): PodTemplate {
    t.(initContainers := PinContainers(rc, registry, t.initContainers),
       containers := PinContainers(rc, registry, t.containers))
  }

  /** The metadata of the images of a list that can be resolved. */
  function ConfigsOf(rc: RegistryConfig, registry: Registry, images: seq<string>): seq<ImageConfig> {
    if images == [] then []
    else
      var image := images[|images| - 1];
      var r := ResolveImage(rc, registry, image);
      ConfigsOf(rc, registry, images[..|images| - 1]) + if image != "" && r.Some? then [r.value] else []
  }

  ghost function Configs(rc: RegistryConfig, registry: Registry, t: PodTemplate): seq<ImageConfig> {
    ConfigsOf(rc, registry, SortedKeys(ImagesOf(t)))
  }

  /** On success the metadata list has one entry for each distinct image, in increasing order. */
  lemma ConfigsAreSorted(rc: RegistryConfig, registry: Registry, t: PodTemplate)
    requires AllResolve(rc, registry, t)
    ensures var keys := SortedKeys(ImagesOf(t) - {""});
      var configs := Configs(rc, registry, t);
      |configs| == |keys| && forall k | 0 <= k < |keys| :: Some(configs[k]) == ResolveImage(rc, registry, keys[k])
  {
    var all := SortedKeys(ImagesOf(t));
    var some := DropEmpty(all);
    ConfigsSkipEmpty(rc, registry, all);
    DropEmptyIsSorted(ImagesOf(t), all);
    SortedSetUnique(ImagesOf(t) - {""}, some, SortedKeys(ImagesOf(t) - {""}));
  }

  function DropEmpty(images: seq<string>): seq<string> {
    if images == [] then []
    else DropEmpty(images[..|images| - 1]) + if images[|images| - 1] == "" then [] else [images[|images| - 1]]
  }

  lemma {:induction false} ConfigsSkipEmpty(rc: RegistryConfig, registry: Registry, images: seq<string>)
    requires forall image | image in images :: Resolves(rc, registry, image)
    ensures var some := DropEmpty(images);
      var configs := ConfigsOf(rc, registry, images);
      |configs| == |some| && forall k | 0 <= k < |some| :: Some(configs[k]) == ResolveImage(rc, registry, some[k])
  {
    if images != [] {
      var n := |images| - 1;
      assert images[n] in images;
      ConfigsSkipEmpty(rc, registry, images[..n]);
    }
  }

  lemma {:induction false} DropEmptyIsSorted(keys: set<string>, images: seq<string>)
    requires IsSortedSet(keys, images)
    ensures IsSortedSet(keys - {""}, DropEmpty(images))
  {
    if images != [] {
      var n := |images| - 1;
      var last := images[n];
      assert images == images[..n] + [last];
      LastKeyIsNew(keys, images);
      DropEmptyIsSorted(keys - {last}, images[..n]);
      var before := DropEmpty(images[..n]);
      forall i | 0 <= i < |before| ensures Less(before[i], last) {
        assert before[i] in keys - {last} - {""};
        assert before[i] in images[..n];
      }
    }
  }

  lemma LastKeyIsNew(keys: set<string>, images: seq<string>)
    requires images != [] && IsSortedSet(keys, images)
    ensures IsSortedSet(keys - {images[|images| - 1]}, images[..|images| - 1])
    ensures forall i | 0 <= i < |images| - 1 :: Less(images[i], images[|images| - 1])
  {
    var n := |images| - 1;
    LessIrreflexive(images[n]);
    assert images == images[..n] + [images[n]];
    forall k ensures k in keys - {images[n]} <==> k in images[..n] {
      assert k in keys <==> k in images;
      if k in images[..n] {
        assert Less(k, images[n]);
      }
    }
  }

  lemma PinnedComesFrom(rc: RegistryConfig, registry: Registry, cs: seq<Container>,
                        image: string) returns (original: string)
    requires exists c :: c in PinContainers(rc, registry, cs) && c.image == image
    ensures exists c :: c in cs && c.image == original
    ensures ResolvedText(rc, registry, original) == image
  {
    var pinned := PinContainers(rc, registry, cs);
    var c :| c in pinned && c.image == image;
    var i :| 0 <= i < |pinned| && pinned[i] == c;
    assert cs[i] in cs;
    original := cs[i].image;
  }

  /** Every non-empty image of a resolved template is listed in the metadata. */
  lemma PinnedImagesAreListed(rc: RegistryConfig, registry: Registry, t: PodTemplate, image: string)
    requires AllResolve(rc, registry, t)
    requires image in ImagesOf(PinTemplate(rc, registry, t)) && image != ""
    ensures exists config :: config in Configs(rc, registry, t) && config.image == image
  {
    var original: string;
    if exists c :: c in PinContainers(rc, registry, t.containers) && c.image == image {
      original := PinnedComesFrom(rc, registry, t.containers, image);
    } else {
      original := PinnedComesFrom(rc, registry, t.initContainers, image);
    }
    ListedImage(rc, registry, t, original);
  }

  lemma ListedImage(rc: RegistryConfig, registry: Registry, t: PodTemplate, original: string)
    requires AllResolve(rc, registry, t) && original in ImagesOf(t) && original != ""
    ensures exists config :: config in Configs(rc, registry, t) && config.image == ResolvedText(rc, registry, original)
  {
    ConfigsAreSorted(rc, registry, t);
    var keys := SortedKeys(ImagesOf(t) - {""});
    assert original in keys;
    var k :| 0 <= k < |keys| && keys[k] == original;
    var configs := Configs(rc, registry, t);
    assert configs[k] in configs;
  }

  /** The non-empty images of both container lists, each once, in the order of strings. */
  ghost predicate ListsImages(t: PodTemplate, images: seq<string>) {
    && InStringOrder(images)
    && forall image :: image in images <==>
         image != "" && exists c :: (c in t.initContainers || c in t.containers) && c.image == image
  }

  /** The metadata list holds, for each of them, what the registry serves. */
  ghost predicate HoldsServed(names: NameLibrary, registry: Registry, images: seq<string>, configs: seq<ImageConfig>) {
    && |configs| == |images|
    && forall k | 0 <= k < |images| :: Serves(names, registry, images[k], configs[k])
  }

  lemma ConfigsAreServed(rc: RegistryConfig, registry: Registry, t: PodTemplate)
    requires AllResolve(rc, registry, t)
    ensures exists images ::
      ListsImages(t, images) && HoldsServed(rc.names, registry, images, Configs(rc, registry, t))
  {
    var images, configs := SortedKeys(ImagesOf(t) - {""}), Configs(rc, registry, t);
    ConfigsAreSorted(rc, registry, t);
    SortedIsInStringOrder(ImagesOf(t) - {""}, images);
    forall image
      ensures image in images <==>
        image != "" && exists c :: (c in t.initContainers || c in t.containers) && c.image == image
    {
      assert image in images <==> image in ImagesOf(t) - {""};
    }
    forall k | 0 <= k < |images| ensures Serves(rc.names, registry, images[k], configs[k]) {
      ResolvesTo(rc, registry, images[k], configs[k]);
    }
    assert ListsImages(t, images) && HoldsServed(rc.names, registry, images, configs);
  }

  /** A container keeps all but its image, which becomes the text of what the registry serves for it. */
  ghost predicate IsPinned(names: NameLibrary, registry: Registry, c: Container, d: Container) {
    && d == c.(image := d.image)
    && if c.image == "" then d.image == ""
       else exists entry :: Serves(names, registry, c.image, entry) && entry.image == d.image
  }

  ghost predicate ArePinned(names: NameLibrary, registry: Registry, cs: seq<Container>, ds: seq<Container>) {
    |ds| == |cs| && forall i | 0 <= i < |cs| :: IsPinned(names, registry, cs[i], ds[i])
  }

  lemma ContainersArePinned(rc: RegistryConfig, registry: Registry, cs: seq<Container>)
    requires forall c | c in cs :: Resolves(rc, registry, c.image)
    ensures ArePinned(rc.names, registry, cs, PinContainers(rc, registry, cs))
  {
    var ds := PinContainers(rc, registry, cs);
    forall i | 0 <= i < |cs| ensures IsPinned(rc.names, registry, cs[i], ds[i]) {
      assert cs[i] in cs;
      if cs[i].image != "" {
        ResolvesTo(rc, registry, cs[i].image, ResolveImage(rc, registry, cs[i].image).value);
      }
    }
  }

  /** All images of a template are resolved, or none is: all exactly when each can be served. */
  lemma TemplateIsPinned(rc: RegistryConfig, registry: Registry, t: PodTemplate)
    ensures AllResolve(rc, registry, t) <==>
      forall c | c in t.initContainers || c in t.containers :: c.image == "" || CanBeServed(rc, registry, c.image)
    ensures AllResolve(rc, registry, t) ==>
      var u := PinTemplate(rc, registry, t);
      && u == t.(initContainers := u.initContainers, containers := u.containers)
      && ArePinned(rc.names, registry, t.initContainers, u.initContainers)
      && ArePinned(rc.names, registry, t.containers, u.containers)
  {
    forall c | c in t.initContainers || c in t.containers
      ensures c.image in ImagesOf(t)
      ensures Resolves(rc, registry, c.image) <==> (c.image == "" || CanBeServed(rc, registry, c.image))
    {
      ResolvesTo(rc, registry, c.image, ImageConfig("", [], ""));
    }
    if AllResolve(rc, registry, t) {
      ContainersArePinned(rc, registry, t.initContainers);
      ContainersArePinned(rc, registry, t.containers);
    }
  }

  // ----- the code -----

  /** getImagesSet. */
  method GetImagesSet(template: PodTemplateSpec) returns (images: set<string>)
    ensures images == ImagesOf(template.View())
  {
    images := {};
    for i := 0 to template.initContainers.Length
      invariant images == set c | c in template.initContainers[..i] :: c.image
    {
      assert template.initContainers[..i + 1] == template.initContainers[..i] + [template.initContainers[i]];
      images := images + {template.initContainers[i].image};
    }
    assert template.initContainers[..template.initContainers.Length] == template.initContainers[..];
    ghost var inits := images;
    for i := 0 to template.containers.Length
      invariant images == inits + set c | c in template.containers[..i] :: c.image
    {
      assert template.containers[..i + 1] == template.containers[..i] + [template.containers[i]];
      images := images + {template.containers[i].image};
    }
    assert template.containers[..template.containers.Length] == template.containers[..];
  }

  function Substitute(digests: map<string, string>, c: Container): Container {
    if c.image in digests then c.(image := digests[c.image]) else c
  }

  /** One slice of updateWithResolvedDigest. */
  method UpdateSlice(slice: array<Container>, digests: map<string, string>)
    modifies slice
    ensures forall i | 0 <= i < slice.Length :: slice[i] == Substitute(digests, old(slice[i]))
  {
    for i := 0 to slice.Length
      invariant forall j | 0 <= j < i :: slice[j] == Substitute(digests, old(slice[j]))
      invariant forall j | i <= j < slice.Length :: slice[j] == old(slice[j])
    {
      if slice[i].image in digests {
        slice[i] := slice[i].(image := digests[slice[i].image]);
      }
    }
  }

  /** ResolveImageMetadata: all images are resolved before any container is touched. */
  method ResolveImageMetadata(rc: RegistryConfig, registry: Registry, template: PodTemplateSpec?)
    returns (configs: seq<ImageConfig>, failed: bool)
    requires template != null ==> template.Valid()
    modifies if template == null then {} else {template.initContainers, template.containers}
    ensures template == null ==> configs == [] && !failed
    ensures template != null ==>
      && configs == Configs(rc, registry, old(template.View()))
      && (!failed <==> AllResolve(rc, registry, old(template.View())))
      && template.View() == if failed then old(template.View()) else PinTemplate(rc, registry, old(template.View()))
    ensures template != null ==> var t := old(template.View());
      && (!failed <==> forall c | c in t.initContainers || c in t.containers ::
            c.image == "" || CanBeServed(rc, registry, c.image))
      && (!failed ==>
            && ArePinned(rc.names, registry, t.initContainers, template.View().initContainers)
            && ArePinned(rc.names, registry, t.containers, template.View().containers)
            && exists images :: ListsImages(t, images) && HoldsServed(rc.names, registry, images, configs))
  {
    if template == null {
      return [], false;
    }
    ghost var t := template.View();
    var images := GetImagesSet(template);
    var list := SortStrings(images);
    var digests: map<string, string>;
    configs, digests, failed := ResolveList(rc, registry, list);
    TemplateIsPinned(rc, registry, t);
    if failed {
      return;
    }
    ConfigsAreServed(rc, registry, t);
    ResolvesInOrder(rc, registry, t);
    UpdateSlice(template.initContainers, digests);
    UpdateSlice(template.containers, digests);
    SubstituteIsPin(rc, registry, digests, t.initContainers, ImagesOf(t));
    SubstituteIsPin(rc, registry, digests, t.containers, ImagesOf(t));
    assert template.initContainers[..] == PinContainers(rc, registry, t.initContainers);
    assert template.containers[..] == PinContainers(rc, registry, t.containers);
  }

  lemma ResolvesInOrder(rc: RegistryConfig, registry: Registry, t: PodTemplate)
    ensures AllResolve(rc, registry, t)
            <==> forall image | image in SortedKeys(ImagesOf(t)) :: Resolves(rc, registry, image)
  {
  }

  lemma SubstituteIsPin(rc: RegistryConfig, registry: Registry, digests: map<string, string>, cs: seq<Container>,
                        images: set<string>)
    requires forall c | c in cs :: c.image in images
    requires forall image | image in images :: Resolves(rc, registry, image)
    requires forall image :: image in digests <==> image in images && image != ""
    requires forall image | image in digests :: digests[image] == ResolvedText(rc, registry, image)
    ensures forall i | 0 <= i < |cs| :: Substitute(digests, cs[i]) == PinContainers(rc, registry, cs)[i]
  {
  }

  method ResolveList(rc: RegistryConfig, registry: Registry, list: seq<string>)
    returns (configs: seq<ImageConfig>, digests: map<string, string>, failed: bool)
    ensures configs == ConfigsOf(rc, registry, list)
    ensures failed <==> exists image :: image in list && !Resolves(rc, registry, image)
    ensures forall image :: image in digests <==> image in list && image != "" && Resolves(rc, registry, image)
    ensures forall image | image in digests :: digests[image] == ResolvedText(rc, registry, image)
  {
    configs, digests := [], map[];
    var errors: set<string> := {};
    for n := 0 to |list|
      invariant configs == ConfigsOf(rc, registry, list[..n])
      invariant forall image :: image in errors <==> image in list[..n] && !Resolves(rc, registry, image)
      invariant forall image :: image in digests <==> image in list[..n] && image != "" && Resolves(rc, registry, image)
      invariant forall image | image in digests :: digests[image] == ResolvedText(rc, registry, image)
    {
      var image := list[n];
      assert list[..n + 1][..n] == list[..n] && list[..n + 1] == list[..n] + [image];
      if image != "" {
        var config := ResolveImage(rc, registry, image);
        if config.None? {
          errors := errors + {image};
          continue;
        }
        configs := configs + [config.value];
        digests := digests[image := config.value.image];
      }
    }
    assert list[..|list|] == list;
    failed := errors != {};
    if failed {
      var image :| image in errors;
      assert image in list;
    }
  }
}
