/** Boot Indexes (internal/image/bootindex.go, bootindex_publish.go): the image index that names a
    sandbox's rootfs, kernel and memory components, as section "Image Index" of the OCI Image Format
    Specification lays it out. Each checkpoint publishes a new one from the one it booted from. */
module BootIndex {
  import opened Domain
  import opened Text

  /** The annotation keys the code reads: io.conch.kind, org.opencontainers.image.ref.name,
      io.conch.vmm, io.conch.memory-size-mb and io.conch.cpu-count. */
  datatype Key = KIND | REF | VMM | MEMORY | CPUS | OtherKey(name: string)
  datatype MediaType = MANIFEST | INDEX | OtherMedia(name: string)

  type Annotations = map<Key, string>

  datatype Descriptor = Descriptor(mediaType: MediaType, digest: Digest, size: int, annotations: Annotations)
  datatype Index = Index(manifests: seq<Descriptor>, annotations: Annotations)
  datatype Blob = IndexBlob(index: Index) | Other

  datatype Info = Info(rootfs: Descriptor, mem: Option<Descriptor>, sandbox: Descriptor, vmm: string, memoryMB: int,
      cpus: int)

  const ROOTFS := "rootfs"
  const SANDBOX := "sandbox"
  const MEM := "mem-snapshot"
  const UNKNOWN := "unknown"

  /** A missing annotation reads as the empty string. */
  function Read(a: Annotations, key: Key): string { if key in a then Trim(a[key]) else "" }

  function KindOf(d: Descriptor): string {
    if KIND in d.annotations && d.annotations[KIND] != "" then d.annotations[KIND] else UNKNOWN
  }

  predicate Proper(d: Descriptor) { d.digest != "" && d.size >= 0 }

  /** strconv.ParseInt in base 10 and 64 bits. */
  function ParseInt(s: string): (r: Option<Int64>) {
    var negative := s != "" && s[0] == '-';
    var digits := if s != "" && (s[0] == '-' || s[0] == '+') then s[1..] else s;
    var n := ParseDigits(digits);
    if n.None? || n.value > (if negative then MAX_INT64 + 1 else MAX_INT64) then None
    else var v: int := n.value; Some(if negative then -v else v)
  }

  lemma CountRoundTrip(n: Int64)
    requires n > 0
    ensures ParseInt(Trim(Format(n))) == Some(n) && Trim(Format(n)) != ""
  {
    ParseFormat(n);
  }

  lemma AgreedRoundTrip(n: Int64)
    requires n > 0
    ensures AgreedCount(Trim(Format(n)), Trim(Format(n))) == Some(n)
  {
    CountRoundTrip(n);
  }

  // ---------------------------------------------------------------------------------------------
  // Inspecting
  // ---------------------------------------------------------------------------------------------

  predicate Supported(kind: string) { kind == ROOTFS || kind == MEM || kind == SANDBOX }

  /** A proper manifest of a supported kind that is not there yet. */
  predicate Fits(components: map<string, Descriptor>, d: Descriptor) {
    Supported(KindOf(d)) && KindOf(d) !in components && d.mediaType == MANIFEST && Proper(d)
  }

  /** The components by kind: every entry is a proper manifest of a supported kind, no kind twice. */
  function Components(manifests: seq<Descriptor>): Option<map<string, Descriptor>> {
    if manifests == [] then Some(map[])
    else
      var n := |manifests| - 1;
      var last, rest := manifests[n], Components(manifests[..n]);
      if rest.None? || !Fits(rest.value, last) then None
      else Some(rest.value[KindOf(last) := last])
  }

  /** Each manifest is the component of its kind, and there are no others. */
  lemma {:induction false} ComponentsAreManifests(manifests: seq<Descriptor>)
    requires Components(manifests).Some?
    ensures var c := Components(manifests).value;
            && |c| == |manifests|
            && forall k :: k in c ==>
               c[k] in manifests && KindOf(c[k]) == k && c[k].mediaType == MANIFEST && Proper(c[k])
  {
    if manifests != [] { ComponentsAreManifests(manifests[..|manifests| - 1]); }
  }

  method ValidateKinds(manifests: seq<Descriptor>) returns (r: Option<map<string, Descriptor>>)
    ensures r == var c := Components(manifests); if c.Some? && ROOTFS in c.value && SANDBOX in c.value then c else None
  {
    var components: map<string, Descriptor> := map[];
    for i := 0 to |manifests|
      invariant Components(manifests[..i]) == Some(components)
    {
      var d := manifests[i];
      ComponentsSnoc(manifests, i, components);
      if !Fits(components, d) {
        NoComponents(manifests, i + 1);
        return None;
      }
      components := components[KindOf(d) := d];
    }
    assert manifests[..|manifests|] == manifests;
    if ROOTFS !in components || SANDBOX !in components { return None; }
    r := Some(components);
  }

  lemma ComponentsSnoc(manifests: seq<Descriptor>, i: nat, components: map<string, Descriptor>)
    requires i < |manifests| && Components(manifests[..i]) == Some(components)
    ensures Components(manifests[..i + 1])
            == if Fits(components, manifests[i]) then Some(components[KindOf(manifests[i]) := manifests[i]]) else None
  {
    assert manifests[..i + 1][..i] == manifests[..i];
  }

  lemma {:induction false} NoComponents(manifests: seq<Descriptor>, i: nat)
    requires i <= |manifests| && Components(manifests[..i]).None?
    ensures Components(manifests).None?
    decreases |manifests|
  {
    if i < |manifests| {
      assert manifests[..|manifests| - 1][..i] == manifests[..i];
      NoComponents(manifests[..|manifests| - 1], i);
    } else {
      assert manifests[..i] == manifests;
    }
  }

  /** A count both the index and the memory component must carry, or neither. */
  function AgreedCount(ofIndex: string, ofMem: string): Option<int> {
    if ofIndex == "" && ofMem == "" then Some(0)
    else if ofIndex != ofMem then None
    else var n := ParseInt(ofIndex); if n.Some? && n.value > 0 then Some(n.value) else None
  }

  /** What an index says, if it is well formed. */
  function Inspect(index: Index): Option<Info> {
    var c := Components(index.manifests);
    if c.None? || ROOTFS !in c.value || SANDBOX !in c.value then None
    else
      var mem: Annotations := if MEM in c.value then c.value[MEM].annotations else map[];
      var vmm := Read(index.annotations, VMM);
      if MEM in c.value then
        var cpus := AgreedCount(Read(index.annotations, CPUS), Read(mem, CPUS));
        var memory := AgreedCount(Read(index.annotations, MEMORY), Read(mem, MEMORY));
        if vmm == "" || Read(mem, VMM) != vmm || cpus.None? || memory.None?
            || (memory == Some(0) && vmm == "stratovirt") then None
        else Some(Info(c.value[ROOTFS], Some(c.value[MEM]), c.value[SANDBOX], vmm, memory.value, cpus.value))
      else if vmm != "" || Read(index.annotations, MEMORY) != "" || Read(index.annotations, CPUS) != "" then None
      else Some(Info(c.value[ROOTFS], None, c.value[SANDBOX], "", 0, 0))
  }

  ghost predicate Sound(manifests: seq<Descriptor>) {
    && (forall i :: 0 <= i < |manifests| ==>
          Supported(KindOf(manifests[i])) && manifests[i].mediaType == MANIFEST && Proper(manifests[i]))
    && (forall i, j :: 0 <= i < j < |manifests| ==> KindOf(manifests[i]) != KindOf(manifests[j]))
  }

  ghost predicate Has(manifests: seq<Descriptor>, d: Descriptor, kind: string) {
    d in manifests && KindOf(d) == kind
  }

  /** The component of a kind is the manifest of that kind. */
  lemma {:induction false} ComponentsHave(manifests: seq<Descriptor>, d: Descriptor, kind: string)
    requires Components(manifests).Some?
    ensures var c := Components(manifests).value; kind in c && c[kind] == d <==> Has(manifests, d, kind)
  {
    if manifests != [] {
      var front, last := manifests[..|manifests| - 1], manifests[|manifests| - 1];
      ComponentsHave(front, d, kind);
      assert d in manifests <==> d in front || d == last;
    }
  }

  lemma AllHave(manifests: seq<Descriptor>)
    requires Components(manifests).Some?
    ensures forall d, kind :: var c := Components(manifests).value; kind in c && c[kind] == d <==>
            Has(manifests, d, kind)
  {
    forall d, kind
      ensures var c := Components(manifests).value; kind in c && c[kind] == d <==> Has(manifests, d, kind)
    {
      ComponentsHave(manifests, d, kind);
    }
  }

  ghost predicate IsNew(front: seq<Descriptor>, d: Descriptor) {
    forall i :: 0 <= i < |front| ==> KindOf(front[i]) != KindOf(d)
  }

  lemma SoundSnoc(front: seq<Descriptor>, d: Descriptor)
    ensures Sound(front + [d]) <==>
            Sound(front) && Supported(KindOf(d)) && d.mediaType == MANIFEST && Proper(d) && IsNew(front, d)
  {
    var all := front + [d];
    assert forall i :: 0 <= i < |front| ==> front[i] == all[i];
    assert all[|front|] == d;
  }

  lemma FitsIsNew(front: seq<Descriptor>, d: Descriptor)
    requires Components(front).Some?
    ensures Fits(Components(front).value, d) <==>
            Supported(KindOf(d)) && d.mediaType == MANIFEST && Proper(d) && IsNew(front, d)
  {
    var c := Components(front).value;
    forall i | 0 <= i < |front| ensures KindOf(front[i]) in c { ComponentsHave(front, front[i], KindOf(front[i])); }
    if KindOf(d) in c { ComponentsHave(front, c[KindOf(d)], KindOf(d)); }
  }

  /** The manifests are accepted exactly when each is a proper manifest of a supported kind and no two
      are of one kind. */
  lemma {:induction false} ComponentsExact(manifests: seq<Descriptor>)
    ensures Components(manifests).Some? <==> Sound(manifests)
  {
    if manifests != [] {
      var n := |manifests| - 1;
      var front, last := manifests[..n], manifests[n];
      ComponentsExact(front);
      SoundSnoc(front, last);
      assert manifests == front + [last];
      if Components(front).Some? { FitsIsNew(front, last); }
    }
  }

  /** Two counts agree: both are missing, or they are the same positive number. */
  ghost predicate Agree(a: string, b: string) {
    a == b && (a == "" || (ParseInt(a).Some? && ParseInt(a).value > 0))
  }

  /** The number a count stands for; a missing one stands for 0. */
  ghost predicate Counted(n: int, text: string) {
    if text == "" then n == 0 else ParseInt(text).Some? && n == ParseInt(text).value
  }

  /** What the annotations of an index must say, given its memory component, if it has one. */
  ghost predicate Consistent(a: Annotations, mem: Option<Descriptor>) {
    if mem.None? then Read(a, VMM) == Read(a, MEMORY) == Read(a, CPUS) == ""
    else
      && Read(a, VMM) != "" && Read(mem.value.annotations, VMM) == Read(a, VMM)
      && Agree(Read(a, CPUS), Read(mem.value.annotations, CPUS))
      && Agree(Read(a, MEMORY), Read(mem.value.annotations, MEMORY))
      && !(Read(a, VMM) == "stratovirt" && Read(a, MEMORY) == "")
  }

  /** An index is accepted exactly when its manifests are sound, rootfs and sandbox are among them, and
      the annotations are consistent; what it says are those manifests and those annotations. */
  lemma InspectExact(index: Index)
    ensures var ms := index.manifests;
            Inspect(index).Some? <==>
              && Sound(ms) && (exists r :: Has(ms, r, ROOTFS)) && (exists s :: Has(ms, s, SANDBOX))
              && (forall m :: Has(ms, m, MEM) ==> Consistent(index.annotations, Some(m)))
              && ((forall m :: !Has(ms, m, MEM)) ==> Consistent(index.annotations, None))
    ensures Inspect(index).Some? ==>
            var ms, info := index.manifests, Inspect(index).value;
            && Has(ms, info.rootfs, ROOTFS) && Has(ms, info.sandbox, SANDBOX)
            && (forall m :: info.mem == Some(m) <==> Has(ms, m, MEM))
            && info.vmm == Read(index.annotations, VMM)
            && Counted(info.memoryMB, Read(index.annotations, MEMORY))
            && Counted(info.cpus, Read(index.annotations, CPUS))
  {
    var ms := index.manifests;
    ComponentsExact(ms);
    if Components(ms).Some? {
      AllHave(ms);
      var c := Components(ms).value;
      forall k | k in c ensures Has(ms, c[k], k) {}
      assert MEM in c <==> exists m :: Has(ms, m, MEM);
      assert ROOTFS in c <==> exists m :: Has(ms, m, ROOTFS);
      assert SANDBOX in c <==> exists m :: Has(ms, m, SANDBOX);
    }
  }

  // ---------------------------------------------------------------------------------------------
  // Building
  // ---------------------------------------------------------------------------------------------

  /** A component handed to the builder, and what its descriptor resolves to: itself if it is a
      manifest, else the first manifest of a nested index. `closed` says whether the content below
      it is all there. */
  datatype Component = Component(desc: Descriptor, resolved: Option<Descriptor>, closed: bool)

  /** The annotations of `b` win. */
  function Merge(a: Annotations, b: Annotations): Annotations { a + b }

  predicate OfKind(d: Descriptor, kind: string) { KindOf(d) == UNKNOWN || KindOf(d) == kind }

  /** The reference name a component gets from its digest. */
  function RefName(kind: string, digest: Digest): string { "localhost/conch/" + kind + "-component:" + digest }

  function NormalizeComponent(c: Component, kind: string, vmm: string): Option<Descriptor> {
    if !Proper(c.desc) || !OfKind(c.desc, kind) || c.resolved.None? then None
    else
      var m := c.resolved.value;
      if !OfKind(m, kind) || m.mediaType != MANIFEST || !Proper(m) || !c.closed then None
      else
        var own := map[KIND := kind, REF := RefName(kind, m.digest)] + if vmm != "" then map[VMM := vmm] else map[];
        Some(m.(annotations := Merge(m.annotations, own)))
  }

  function Sizes(memoryMB: Int64, cpus: Int64): Annotations
    requires memoryMB > 0 && cpus >= 0
  {
    Counts(Format(memoryMB), if cpus > 0 then Some(Format(cpus)) else None)
  }

  function Counts(memory: string, cpus: Option<string>): Annotations {
    map[MEMORY := memory] + if cpus.Some? then map[CPUS := cpus.value] else map[]
  }

  /** The index of a resume: the memory component and the index itself both carry the counts. */
  function ResumeIndex(r: Descriptor, m: Descriptor, s: Descriptor, vmm: string, counts: Annotations): Index {
    Index([r, m.(annotations := Merge(m.annotations, counts)), s], Merge(map[VMM := vmm], counts))
  }

  /** The index built from its parts, or nothing when the parts do not fit. */
  function Build(rootfs: Component, mem: Option<Component>, sandbox: Component, vmmName: string, memoryMB: Int64,
      cpus: Int64): Option<Index> {
    var vmm := Trim(vmmName);
    if mem.Some? && (vmm == "" || memoryMB <= 0 || cpus < 0) then None
    else if mem.None? && (vmm != "" || memoryMB != 0 || cpus != 0) then None
    else
      var r, s := NormalizeComponent(rootfs, ROOTFS, ""), NormalizeComponent(sandbox, SANDBOX, "");
      if r.None? || s.None? then None
      else if mem.None? then Some(Index([r.value, s.value], map[]))
      else
        var m := NormalizeComponent(mem.value, MEM, vmm);
        if m.None? then None
        else Some(ResumeIndex(r.value, m.value, s.value, vmm, Sizes(memoryMB, cpus)))
  }

  lemma NormalizedKind(c: Component, kind: string, vmm: string)
    requires Supported(kind) && NormalizeComponent(c, kind, vmm).Some?
    ensures var d := NormalizeComponent(c, kind, vmm).value;
            KindOf(d) == kind && d.mediaType == MANIFEST && Proper(d) && d.digest == c.resolved.value.digest
            && (vmm != "" ==> VMM in d.annotations && d.annotations[VMM] == vmm)
  {
  }

  lemma ThreeComponents(r: Descriptor, m: Descriptor, s: Descriptor)
    requires KindOf(r) == ROOTFS && KindOf(m) == MEM && KindOf(s) == SANDBOX
    requires forall d :: d in [r, m, s] ==> d.mediaType == MANIFEST && Proper(d)
    ensures Components([r, m, s]) == Some(map[ROOTFS := r, MEM := m, SANDBOX := s])
  {
    assert r in [r, m, s] && m in [r, m, s] && s in [r, m, s];
    TwoComponents(r, m);
    assert [r, m, s][..2] == [r, m];
  }

  /** The rootfs and one component of another kind. */
  lemma TwoComponents(r: Descriptor, s: Descriptor)
    requires KindOf(r) == ROOTFS && (KindOf(s) == SANDBOX || KindOf(s) == MEM)
    requires r.mediaType == s.mediaType == MANIFEST && Proper(r) && Proper(s)
    ensures Components([r, s]) == Some(map[ROOTFS := r, KindOf(s) := s])
  {
    assert [r][..0] == [] && [r, s][..1] == [r];
    assert Components([r]) == Some(map[ROOTFS := r]);
  }

  /** A count annotation left on the memory component by whoever made it. */
  predicate StaleCpus(c: Component) { c.resolved.Some? && Read(c.resolved.value.annotations, CPUS) != "" }

  lemma CountsSay(base: Annotations, memory: string, cpus: Option<string>)
    ensures var a := Merge(base, Counts(memory, cpus));
            && Read(a, MEMORY) == Trim(memory)
            && Read(a, CPUS) == (if cpus.Some? then Trim(cpus.value) else Read(base, CPUS))
            && Read(a, VMM) == Read(base, VMM)
            && (KIND in base ==> KIND in a && a[KIND] == base[KIND])
  {
  }

  lemma NormalizedSays(c: Component, vmm: string)
    requires vmm != "" && NormalizeComponent(c, MEM, vmm).Some?
    ensures var d := NormalizeComponent(c, MEM, vmm).value;
            && Read(d.annotations, VMM) == Trim(vmm) && KIND in d.annotations && d.annotations[KIND] == MEM
            && (Read(d.annotations, CPUS) != "" <==> StaleCpus(c))
            && d.mediaType == MANIFEST && Proper(d) && d.digest == c.resolved.value.digest
  {
  }

  /** What the annotations of a built resume index and of its memory component agree on. */
  lemma BuiltAnnotations(base: Annotations, vmm: string, memoryMB: Int64, cpus: Int64)
    requires Trim(vmm) == vmm && memoryMB > 0 && cpus >= 0 && Read(base, VMM) == vmm
    ensures var a, b := Merge(base, Sizes(memoryMB, cpus)), Merge(map[VMM := vmm], Sizes(memoryMB, cpus));
            && Read(a, VMM) == Read(b, VMM) == vmm
            && (KIND in base ==> KIND in a && a[KIND] == base[KIND])
            && AgreedCount(Read(b, MEMORY), Read(a, MEMORY)) == Some(memoryMB)
            && AgreedCount(Read(b, CPUS), Read(a, CPUS))
               == if cpus == 0 && Read(base, CPUS) != "" then None else Some(cpus)
  {
    AgreedRoundTrip(memoryMB);
    if cpus > 0 { AgreedRoundTrip(cpus); }
    var memory, count := Format(memoryMB), if cpus > 0 then Some(Format(cpus)) else None;
    assert Sizes(memoryMB, cpus) == Counts(memory, count);
    CountsSay(base, memory, count);
    CountsSay(map[VMM := vmm], memory, count);
  }

  lemma InspectResume(r: Descriptor, m: Descriptor, s: Descriptor, a: Annotations, memory: Option<int>,
      cpus: Option<int>)
    requires KindOf(r) == ROOTFS && KindOf(m) == MEM && KindOf(s) == SANDBOX
    requires r.mediaType == m.mediaType == s.mediaType == MANIFEST && Proper(r) && Proper(m) && Proper(s)
    requires Read(a, VMM) == Read(m.annotations, VMM) != ""
    requires memory == AgreedCount(Read(a, MEMORY), Read(m.annotations, MEMORY)) && memory.Some? && memory.value > 0
    requires cpus == AgreedCount(Read(a, CPUS), Read(m.annotations, CPUS))
    ensures Inspect(Index([r, m, s], a)) == if cpus.None? then None
            else Some(Info(r, Some(m), s, Read(a, VMM), memory.value, cpus.value))
  {
    ThreeComponents(r, m, s);
  }

  lemma InspectCold(r: Descriptor, s: Descriptor)
    requires KindOf(r) == ROOTFS && KindOf(s) == SANDBOX
    requires r.mediaType == s.mediaType == MANIFEST && Proper(r) && Proper(s)
    ensures Inspect(Index([r, s], map[])) == Some(Info(r, None, s, "", 0, 0))
  {
    TwoComponents(r, s);
  }

  lemma InspectBuiltResume(rootfs: Component, mem: Component, sandbox: Component, vmmName: string, memoryMB: Int64,
      cpus: Int64)
    requires Build(rootfs, Some(mem), sandbox, vmmName, memoryMB, cpus).Some?
    ensures var index := Build(rootfs, Some(mem), sandbox, vmmName, memoryMB, cpus).value;
            && |index.manifests| == 3
            && index.manifests[0].digest == rootfs.resolved.value.digest
            && index.manifests[1].digest == mem.resolved.value.digest
            && index.manifests[2].digest == sandbox.resolved.value.digest
            && Inspect(index)
               == if cpus == 0 && StaleCpus(mem) then None
                  else Some(Info(index.manifests[0], Some(index.manifests[1]), index.manifests[2], Trim(vmmName),
                      memoryMB, cpus))
  {
    NormalizedKind(rootfs, ROOTFS, "");
    NormalizedKind(sandbox, SANDBOX, "");
    TrimTwice(vmmName);
    var r, s := NormalizeComponent(rootfs, ROOTFS, "").value, NormalizeComponent(sandbox, SANDBOX, "").value;
    InspectResumeIndex(r, mem, s, Trim(vmmName), memoryMB, cpus);
  }

  lemma InspectResumeIndex(r: Descriptor, mem: Component, s: Descriptor, vmm: string, memoryMB: Int64, cpus: Int64)
    requires KindOf(r) == ROOTFS && KindOf(s) == SANDBOX && r.mediaType == s.mediaType == MANIFEST && Proper(r)
             && Proper(s)
    requires vmm != "" && Trim(vmm) == vmm && memoryMB > 0 && cpus >= 0 && NormalizeComponent(mem, MEM, vmm).Some?
    ensures var index := ResumeIndex(r, NormalizeComponent(mem, MEM, vmm).value, s, vmm, Sizes(memoryMB, cpus));
            && index.manifests[1].digest == mem.resolved.value.digest
            && Inspect(index) == if cpus == 0 && StaleCpus(mem) then None
                                 else Some(Info(r, Some(index.manifests[1]), s, vmm, memoryMB, cpus))
  {
    var index := ResumeIndex(r, NormalizeComponent(mem, MEM, vmm).value, s, vmm, Sizes(memoryMB, cpus));
    NormalizedSays(mem, vmm);
    BuiltAnnotations(NormalizeComponent(mem, MEM, vmm).value.annotations, vmm, memoryMB, cpus);
    InspectResume(r, index.manifests[1], s, index.annotations, Some(memoryMB),
                  if cpus == 0 && StaleCpus(mem) then None else Some(cpus));
  }

  /** Inspecting a built index gives back its parts: the resolved components, the VMM, the memory size
      and the CPU count. It fails in one case only: no CPU count was given and the memory component
      came with one. */
  lemma InspectBuilt(rootfs: Component, mem: Option<Component>, sandbox: Component, vmmName: string, memoryMB: Int64,
      cpus: Int64)
    requires Build(rootfs, mem, sandbox, vmmName, memoryMB, cpus).Some?
    ensures var i := Inspect(Build(rootfs, mem, sandbox, vmmName, memoryMB, cpus).value);
            && (i.None? <==> mem.Some? && cpus == 0 && StaleCpus(mem.value))
            && (i.Some? ==>
                  && i.value.rootfs.digest == rootfs.resolved.value.digest
                  && i.value.sandbox.digest == sandbox.resolved.value.digest
                  && (i.value.mem.Some? <==> mem.Some?)
                  && (mem.Some? ==> i.value.mem.value.digest == mem.value.resolved.value.digest)
                  && i.value.vmm == Trim(vmmName) && i.value.memoryMB == memoryMB && i.value.cpus == cpus)
  {
    if mem.Some? {
      InspectBuiltResume(rootfs, mem.value, sandbox, vmmName, memoryMB, cpus);
    } else {
      NormalizedKind(rootfs, ROOTFS, "");
      NormalizedKind(sandbox, SANDBOX, "");
      InspectCold(NormalizeComponent(rootfs, ROOTFS, "").value, NormalizeComponent(sandbox, SANDBOX, "").value);
    }
  }

  lemma {:induction false} TrimTwice(s: string)
    ensures Trim(Trim(s)) == Trim(s)
  {
  }

  // ---------------------------------------------------------------------------------------------
  // Checkpoints
  // ---------------------------------------------------------------------------------------------

  /** A capture to publish: the memory component written from the staging directory, if that worked,
      the VMM that made it and the sizes of the machine. */
  datatype Capture = Capture(mem: Option<Component>, vmmName: string, memoryMB: Int64, cpus: Int64)

  /** A component of an inspected index, handed to the builder again. */
  function Reused(d: Descriptor): Component { Component(d, Some(d), true) }

  /** The index a capture becomes, given what its source says. */
  function CheckpointIndex(source: Info, capture: Capture): Option<Index> {
    var vmm := Trim(capture.vmmName);
    if vmm == "" || capture.memoryMB <= 0 || capture.cpus <= 0 || (source.vmm != "" && source.vmm != vmm)
        || capture.mem.None? then None
    else Build(Reused(source.rootfs), capture.mem, Reused(source.sandbox), vmm, capture.memoryMB, capture.cpus)
  }

  /** A component that can be stored as `kind`: itself proper, of that kind or of none, and resolved to a
      proper manifest, of that kind or of none, whose content is all there. */
  ghost predicate Usable(c: Component, kind: string) {
    && c.desc.digest != "" && c.desc.size >= 0 && KindOf(c.desc) in {UNKNOWN, kind}
    && c.resolved.Some? && c.closed
    && c.resolved.value.digest != "" && c.resolved.value.size >= 0 && c.resolved.value.mediaType == MANIFEST
    && KindOf(c.resolved.value) in {UNKNOWN, kind}
  }

  /** A capture that fits its source. */
  ghost predicate Publishable(source: Info, capture: Capture) {
    && Trim(capture.vmmName) != "" && capture.memoryMB > 0 && capture.cpus > 0
    && (source.vmm == "" || source.vmm == Trim(capture.vmmName))
    && capture.mem.Some? && Usable(capture.mem.value, MEM)
  }

  /** Of an accepted source index, a capture can be published exactly when it fits: the components of
      the source never stand in the way. */
  lemma CheckpointAccepted(index: Index, capture: Capture)
    requires Inspect(index).Some?
    ensures CheckpointIndex(Inspect(index).value, capture).Some? <==> Publishable(Inspect(index).value, capture)
  {
    var source := Inspect(index).value;
    InspectExact(index);
    ComponentsExact(index.manifests);
    TrimTwice(capture.vmmName);
    ReusedFits(source.rootfs, ROOTFS);
    ReusedFits(source.sandbox, SANDBOX);
    if capture.mem.Some? { UsableFits(capture.mem.value, MEM, Trim(capture.vmmName)); }
  }

  lemma ReusedFits(d: Descriptor, kind: string)
    requires KindOf(d) == kind && d.mediaType == MANIFEST && Proper(d)
    ensures NormalizeComponent(Reused(d), kind, "").Some?
  {
  }

  lemma UsableFits(c: Component, kind: string, vmm: string)
    ensures NormalizeComponent(c, kind, vmm).Some? <==> Usable(c, kind)
  {
  }

  /** One checkpoint: its index says exactly what was captured, over the components of its source. */
  lemma CheckpointSays(source: Info, capture: Capture)
    requires CheckpointIndex(source, capture).Some?
    ensures var i := Inspect(CheckpointIndex(source, capture).value);
            && i.Some?
            && i.value.rootfs.digest == source.rootfs.digest && i.value.sandbox.digest == source.sandbox.digest
            && i.value.mem.Some? && i.value.mem.value.digest == capture.mem.value.resolved.value.digest
            && i.value.vmm == Trim(capture.vmmName) != "" && i.value.memoryMB == capture.memoryMB
            && i.value.cpus == capture.cpus
            && (source.vmm != "" ==> i.value.vmm == source.vmm)
  {
    TrimTwice(capture.vmmName);
    InspectBuilt(Reused(source.rootfs), capture.mem, Reused(source.sandbox), Trim(capture.vmmName), capture.memoryMB,
        capture.cpus);
  }

  /** The content store: blobs under the digests of their bytes, never changed once written. */
  class Content {
    const hash: Index -> Digest
    var blobs: map<Digest, Blob>

    ghost predicate Valid() reads this {
      forall d, i :: d in blobs && hash(i) == d ==> blobs[d] == IndexBlob(i)
    }

    constructor (hash: Index -> Digest)
      ensures Valid() && blobs == map[] && this.hash == hash
    {
      this.hash, blobs := hash, map[];
    }

    /** Writing a blob changes nothing that is in the store. */
    method Write(index: Index) returns (d: Digest)
      requires Valid() && (forall i, j :: hash(i) == hash(j) ==> i == j)
      modifies this
      ensures Valid() && d == hash(index) && blobs == old(blobs)[d := IndexBlob(index)]
      ensures d in old(blobs) ==> old(blobs)[d] == IndexBlob(index)
    {
      d := hash(index);
      blobs := blobs[d := IndexBlob(index)];
    }

    /** Publishes a checkpoint of the sandbox that booted from `source`; `closed` says whether all
        content below the reused components is there. What is in the store stays. */
    method PublishCheckpoint(source: Digest, capture: Capture, closed: bool, writeFails: bool)
        returns (r: Option<Digest>)
      requires Valid() && (forall i, j :: hash(i) == hash(j) ==> i == j)
      modifies this
      ensures Valid() && forall d :: d in old(blobs) ==> d in blobs && blobs[d] == old(blobs)[d]
      ensures r.Some? <==>
              && !writeFails && closed && source in old(blobs) && old(blobs)[source].IndexBlob?
              && var info := Inspect(old(blobs)[source].index); info.Some? && Publishable(info.value, capture)
      ensures r.Some? ==> Derived(blobs, source, r.value, capture)
      ensures r.None? ==> blobs == old(blobs)
    {
      var info := Says(blobs, source);
      var index := NextIndex(info, capture);
      if info.Some? { CheckpointAccepted(blobs[source].index, capture); }
      if index.None? || !closed || writeFails { return None; }
      var d := Write(index.value);
      WriteDerives(old(blobs), blobs, source, d, capture, index.value);
      r := Some(d);
    }
  }

  function Says(blobs: map<Digest, Blob>, d: Digest): Option<Info> {
    if d in blobs && blobs[d].IndexBlob? then Inspect(blobs[d].index) else None
  }

  /** The index a capture becomes, if its source is well formed and the two fit. */
  function NextIndex(source: Option<Info>, capture: Capture): Option<Index> {
    if source.Some? then CheckpointIndex(source.value, capture) else None
  }

  /** Digest `b` names the index published from `a` for a capture. */
  predicate Derived(blobs: map<Digest, Blob>, a: Digest, b: Digest, capture: Capture) {
    b in blobs && blobs[b].IndexBlob? && NextIndex(Says(blobs, a), capture) == Some(blobs[b].index)
  }

  lemma WriteDerives(before: map<Digest, Blob>, after: map<Digest, Blob>, a: Digest, b: Digest, capture: Capture,
      index: Index)
    requires NextIndex(Says(before, a), capture) == Some(index) && after == before[b := IndexBlob(index)]
    requires b in before ==> before[b] == IndexBlob(index)
    ensures Derived(after, a, b, capture)
  {
    assert a in before && after[a] == before[a];
  }

  /** A chain of checkpoints, each published from the one before. */
  ghost predicate Lineage(blobs: map<Digest, Blob>, chain: seq<Digest>, captures: seq<Capture>) {
    && |chain| == |captures| + 1
    && forall i :: 0 <= i < |captures| ==> Derived(blobs, chain[i], chain[i + 1], captures[i])
  }

  /** Along any lineage the rootfs and sandbox components never change, each checkpoint says exactly
      what its capture was, and the VMM is fixed from the first checkpoint on. */
  lemma {:induction false} LineageKeepsComponents(blobs: map<Digest, Blob>, chain: seq<Digest>, captures: seq<Capture>,
      n: nat)
    requires Lineage(blobs, chain, captures) && 0 < n < |chain|
    ensures var first, info, c := Says(blobs, chain[0]), Says(blobs, chain[n]), captures[n - 1];
            && first.Some? && info.Some?
            && info.value.rootfs.digest == first.value.rootfs.digest
            && info.value.sandbox.digest == first.value.sandbox.digest
            && info.value.memoryMB == c.memoryMB && info.value.cpus == c.cpus
            && info.value.vmm == Trim(c.vmmName) == Trim(captures[0].vmmName) != ""
            && (first.value.vmm != "" ==> info.value.vmm == first.value.vmm)
  {
    assert Derived(blobs, chain[n - 1], chain[n - 1 + 1], captures[n - 1]);
    CheckpointSays(Says(blobs, chain[n - 1]).value, captures[n - 1]);
    if n > 1 { LineageKeepsComponents(blobs, chain, captures, n - 1); }
  }
}
