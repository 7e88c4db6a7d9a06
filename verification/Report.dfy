/**
 The JSON report of report.cpp: the writer calls of each section, and the tree they spell.
 */
module Report {
  import opened Json
  import opened JsonProtocol
  import opened JsonWriter
  import opened Numerals
  import opened Wrappers

  datatype CpuInfo = CpuInfo(
    modelName: string, logicalCpus: int, l1d: nat, l2: nat, l3: nat,
    avx2: bool, avx512f: bool, avx512bw: bool, avx512vnni: bool, avx512bf16: bool,
    thp: bool, hugetlb: bool)

  datatype ScalingPoint = ScalingPoint(threads: int, aggregate: Double, perThread: Double)

  datatype RamSection = RamSection(
    bufferBytes: nat, maxThreads: int, singleThread: Double, saturationThreads: int, saturation: Double,
    read: seq<ScalingPoint>, writePlain: seq<ScalingPoint>, writeNt: seq<ScalingPoint>)

  datatype MlpPoint = MlpPoint(streams: int, bandwidth: Double)

  datatype LatencySection = LatencySection(
    footprint: nat, chainNs: Double, plateauStreams: int, plateau: Double, implied: Double, scaling: seq<MlpPoint>)

  datatype DiskSection = DiskSection(
    filePath: string, fileSize: nat, oDirect: bool, note: string,
    sequential: Double, iops: Double, bandwidth: Double, latency: Double)

  datatype ComputeSection = ComputeSection(fp32: bool, gflops: Double, int8: bool, gops: Double)

  datatype HugepageSection = HugepageSection(
    ran: bool, note: string, footprint: nat, baseLatency: Double, hugeLatency: Double, confirmed: bool,
    latencyReduction: Double, baseSequential: Double, hugeSequential: Double, sequentialGain: Double)

  datatype Report = Report(
    cpu: CpuInfo,
    ram: Option<RamSection>,
    latency: Option<LatencySection>,
    disk: Option<DiskSection>,
    compute: Option<ComputeSection>,
    hugepage: Option<HugepageSection>)

  // ----- the trees

  function Text(key: string, s: string): Member {
    Member(key, Leaf(Str(s)))
  }

  function Int(key: string, n: int): Member {
    Member(key, Leaf(Num(IntText(n))))
  }

  function Flag(key: string, b: bool): Member {
    Member(key, Leaf(Bool(b)))
  }

  function Real(key: string, v: Double): Member {
    Member(key, Leaf(DoubleScalar(v)))
  }

  function Note(note: string): seq<Member> {
    if note == "" then [] else [Text("note", note)]
  }

  function CpuMembers(c: CpuInfo): seq<Member> {
    [Text("model_name", c.modelName), Int("logical_cpus", c.logicalCpus),
     Int("l1d_bytes_per_core", c.l1d), Int("l2_bytes_per_core", c.l2), Int("l3_bytes_total", c.l3),
     Flag("has_avx2", c.avx2), Flag("has_avx512f", c.avx512f), Flag("has_avx512bw", c.avx512bw),
     Flag("has_avx512vnni", c.avx512vnni), Flag("has_avx512_bf16", c.avx512bf16),
     Flag("thp_available", c.thp), Flag("hugetlb_available", c.hugetlb)]
  }

  function PointMembers(p: ScalingPoint): seq<Member> {
    [Int("threads", p.threads), Real("aggregate_gbs", p.aggregate), Real("per_thread_gbs", p.perThread)]
  }

  function PointTrees(points: seq<ScalingPoint>): seq<Json> {
    seq(|points|, i requires 0 <= i < |points| => Obj(PointMembers(points[i])))
  }

  function RamMembers(r: RamSection): seq<Member> {
    [Int("buffer_bytes_per_thread", r.bufferBytes), Int("max_threads_tested", r.maxThreads),
     Real("single_thread_read_gbs", r.singleThread), Int("read_saturation_threads", r.saturationThreads),
     Real("read_saturation_gbs", r.saturation),
     Member("read_scaling", Arr(PointTrees(r.read))),
     Member("write_plain_scaling", Arr(PointTrees(r.writePlain))),
     Member("write_nt_scaling", Arr(PointTrees(r.writeNt)))]
  }

  function MlpMembers(p: MlpPoint): seq<Member> {
    [Int("streams", p.streams), Real("bandwidth_gbs", p.bandwidth)]
  }

  function MlpTrees(points: seq<MlpPoint>): seq<Json> {
    seq(|points|, i requires 0 <= i < |points| => Obj(MlpMembers(points[i])))
  }

  function LatencyMembers(r: LatencySection): seq<Member> {
    [Int("footprint_bytes", r.footprint), Real("dependent_chain_latency_ns", r.chainNs),
     Int("mlp_plateau_streams", r.plateauStreams), Real("mlp_plateau_bandwidth_gbs", r.plateau),
     Real("implied_outstanding_requests", r.implied), Member("mlp_scaling", Arr(MlpTrees(r.scaling)))]
  }

  function DiskMembers(r: DiskSection): seq<Member> {
    [Text("file_path", r.filePath), Int("file_size_bytes", r.fileSize), Flag("used_o_direct", r.oDirect)]
    + Note(r.note)
    + [Real("sequential_read_gbs", r.sequential), Real("random4k_iops", r.iops),
       Real("random4k_bandwidth_mbs", r.bandwidth), Real("random4k_avg_latency_us", r.latency)]
  }

  function ComputeMembers(r: ComputeSection): seq<Member> {
    [Flag("fp32_fma_available", r.fp32), Real("fp32_fma_gflops", r.gflops),
     Flag("int8_vnni_available", r.int8), Real("int8_vnni_gops", r.gops)]
  }

  function HugepageMembers(r: HugepageSection): seq<Member> {
    [Flag("ran", r.ran)] + Note(r.note) + HugepageFigures(r)
  }

  function HugepageFigures(r: HugepageSection): seq<Member> {
    [Int("footprint_bytes", r.footprint), Real("baseline_4k_latency_ns", r.baseLatency),
     Real("hugepage_latency_ns", r.hugeLatency), Flag("hugepage_confirmed", r.confirmed),
     Real("latency_reduction_pct", r.latencyReduction), Real("baseline_4k_seq_gbs", r.baseSequential),
     Real("hugepage_seq_gbs", r.hugeSequential), Real("seq_gain_pct", r.sequentialGain)]
  }

  function Section(key: string, members: Option<seq<Member>>): seq<Member> {
    if members.None? then [] else [Member(key, Obj(members.value))]
  }

  function RamPart(r: Report): Option<seq<Member>> { if r.ram.None? then None else Some(RamMembers(r.ram.value)) }

  function LatencyPart(r: Report): Option<seq<Member>> {
    if r.latency.None? then None else Some(LatencyMembers(r.latency.value))
  }

  function DiskPart(r: Report): Option<seq<Member>> { if r.disk.None? then None else Some(DiskMembers(r.disk.value)) }

  function ComputePart(r: Report): Option<seq<Member>> {
    if r.compute.None? then None else Some(ComputeMembers(r.compute.value))
  }

  function HugepagePart(r: Report): Option<seq<Member>> {
    if r.hugepage.None? then None else Some(HugepageMembers(r.hugepage.value))
  }

  /** The members of the report: when it was made, the machine, and the sections that ran. */
  function ReportMembers(r: Report, generatedAt: string): seq<Member> {
    [Text("generated_at", generatedAt), Member("cpu", Obj(CpuMembers(r.cpu)))]
    + Section("ram", RamPart(r)) + Section("latency", LatencyPart(r)) + Section("disk", DiskPart(r))
    + Section("compute", ComputePart(r)) + Section("hugepage", HugepagePart(r))
  }

  // ----- the calls

  ghost predicate IsOpenObject(d: Doc, base: Doc, done: seq<Member>) {
    d == Push(base, InObject(done, None))
  }

  /** The writer is inside an object of base, with these members complete. */
  ghost predicate InObjectOf(j: Stream, base: Doc, done: seq<Member>)
    reads j
  {
    && j.Valid() && TakesValue(base)
    && forall d {:trigger IsOpenObject(d, base, done)} :: IsOpenObject(d, base, done) ==> j.doc == Some(d)
  }

  ghost predicate InArrayOf(j: Stream, base: Doc, done: seq<Json>)
    reads j
  {
    j.Valid() && TakesValue(base) && j.doc == Some(Push(base, InArray(done)))
  }

  /** The writer stands where a value may come. */
  ghost predicate At(j: Stream, base: Doc)
    reads j
  {
    j.Valid() && TakesValue(base) && j.doc == Some(base)
  }

  method Begin(j: Stream, ghost base: Doc, ghost all: seq<Member>)
    requires At(j, base)
    modifies j
    ensures InObjectOf(j, base, all[..0])
  {
    j.WriteBeginObject();
    assert all[..0] == [];
  }

  method End(j: Stream, ghost base: Doc, ghost all: seq<Member>, ghost n: nat)
    requires n == |all| && InObjectOf(j, base, all[..n])
    modifies j
    ensures j.Valid() && j.doc == Some(Deliver(base, Obj(all)))
  {
    assert all[..n] == all && IsOpenObject(Push(base, InObject(all, None)), base, all);
    assert Pop(Push(base, InObject(all, None))) == base;
    assert Agrees(j.State(), Push(base, InObject(all, None)));
    j.WriteEndObject();
  }

  /** One kv call: the next of the members the object is to have. */
  method Kv(j: Stream, m: Member, ghost base: Doc, ghost all: seq<Member>, ghost n: nat)
    returns (ghost n': nat)
    requires n < |all| && all[n] == m && m.val.Leaf? && InObjectOf(j, base, all[..n])
    modifies j
    ensures n' == n + 1 && InObjectOf(j, base, all[..n'])
  {
    n' := n + 1;
    assert IsOpenObject(Push(base, InObject(all[..n], None)), base, all[..n]);
    j.WriteKv(m.key, m.val.x);
    KeyThenValue(base, all[..n], m);
    assert all[..n] + [m] == all[..n'];
  }

  /** Behind a key of an object, the object's document waits for the value. */
  function Keyed(base: Doc, done: seq<Member>, key: string): Doc {
    Push(base, InObject(done, Some(key)))
  }

  method StartMember(j: Stream, key: string, ghost base: Doc, ghost done: seq<Member>)
    requires InObjectOf(j, base, done)
    modifies j
    ensures At(j, Keyed(base, done, key))
  {
    assert IsOpenObject(Push(base, InObject(done, None)), base, done);
    j.WriteKey(key);
    KeyThenValue(base, done, Member(key, Leaf(Null)));
  }

  lemma MemberDelivered(base: Doc, all: seq<Member>, n: nat)
    requires TakesValue(base) && n < |all|
    ensures Deliver(Keyed(base, all[..n], all[n].key), all[n].val) == Push(base, InObject(all[..n + 1], None))
  {
    KeyThenValue(base, all[..n], all[n]);
    assert all[..n] + [all[n]] == all[..n + 1];
  }

  method WriteCpu(j: Stream, c: CpuInfo, ghost base: Doc)
    requires At(j, base)
    modifies j
    ensures j.Valid() && j.doc == Some(Deliver(base, Obj(CpuMembers(c))))
  {
    ghost var all, n := CpuMembers(c), 0;
    Begin(j, base, all);
    n := WriteCpuSizes(j, c, base, all, n);
    n := WriteCpuFeatures(j, c, base, all, n);
    End(j, base, all, n);
  }

  /** The first five members of the cpu object ... */
  method WriteCpuSizes(j: Stream, c: CpuInfo, ghost base: Doc, ghost all: seq<Member>, ghost n: nat)
    returns (ghost n': nat)
    requires all == CpuMembers(c) && n == 0 && InObjectOf(j, base, all[..n])
    modifies j
    ensures n' == 5 && InObjectOf(j, base, all[..n'])
  {
    n' := Kv(j, Text("model_name", c.modelName), base, all, n);
    n' := Kv(j, Int("logical_cpus", c.logicalCpus), base, all, n');
    n' := Kv(j, Int("l1d_bytes_per_core", c.l1d), base, all, n');
    n' := Kv(j, Int("l2_bytes_per_core", c.l2), base, all, n');
    n' := Kv(j, Int("l3_bytes_total", c.l3), base, all, n');
  }

  /** ... and its seven feature flags. */
  method WriteCpuFeatures(j: Stream, c: CpuInfo, ghost base: Doc, ghost all: seq<Member>, ghost n: nat)
    returns (ghost n': nat)
    requires all == CpuMembers(c) && n == 5 && InObjectOf(j, base, all[..n])
    modifies j
    ensures n' == 12 && InObjectOf(j, base, all[..n'])
  {
    n' := Kv(j, Flag("has_avx2", c.avx2), base, all, n);
    n' := Kv(j, Flag("has_avx512f", c.avx512f), base, all, n');
    n' := Kv(j, Flag("has_avx512bw", c.avx512bw), base, all, n');
    n' := Kv(j, Flag("has_avx512vnni", c.avx512vnni), base, all, n');
    n' := Kv(j, Flag("has_avx512_bf16", c.avx512bf16), base, all, n');
    n' := Kv(j, Flag("thp_available", c.thp), base, all, n');
    n' := Kv(j, Flag("hugetlb_available", c.hugetlb), base, all, n');
  }

  method WriteScaling(j: Stream, key: string, points: seq<ScalingPoint>, ghost base: Doc,
               ghost all: seq<Member>, ghost n: nat)
    returns (ghost n': nat)
    requires n < |all| && all[n] == Member(key, Arr(PointTrees(points))) && InObjectOf(j, base, all[..n])
    modifies j
    ensures n' == n + 1 && InObjectOf(j, base, all[..n'])
  {
    n' := n + 1;
    ghost var at, items := Keyed(base, all[..n], key), PointTrees(points);
    StartMember(j, key, base, all[..n]);
    BeginArray(j, at, items);
    for i := 0 to |points|
      invariant InArrayOf(j, at, items[..i])
    {
      WriteScalingPoint(j, points[i], Push(at, InArray(items[..i])));
      ItemDelivered(at, items, i);
    }
    EndArray(j, at, items);
    MemberDelivered(base, all, n);
  }

  method WriteScalingPoint(j: Stream, p: ScalingPoint, ghost base: Doc)
    requires At(j, base)
    modifies j
    ensures j.Valid() && j.doc == Some(Deliver(base, Obj(PointMembers(p))))
  {
    ghost var all, n := PointMembers(p), 0;
    Begin(j, base, all);
    n := Kv(j, Int("threads", p.threads), base, all, n);
    n := Kv(j, Real("aggregate_gbs", p.aggregate), base, all, n);
    n := Kv(j, Real("per_thread_gbs", p.perThread), base, all, n);
    End(j, base, all, n);
  }

  lemma ItemDelivered(at: Doc, items: seq<Json>, i: nat)
    requires TakesValue(at) && i < |items|
    ensures Deliver(Push(at, InArray(items[..i])), items[i]) == Push(at, InArray(items[..i + 1]))
  {
    assert items[..i] + [items[i]] == items[..i + 1];
  }

  method BeginArray(j: Stream, ghost at: Doc, ghost items: seq<Json>)
    requires At(j, at)
    modifies j
    ensures InArrayOf(j, at, items[..0])
  {
    j.WriteBeginArray();
    assert items[..0] == [];
  }

  method EndArray(j: Stream, ghost at: Doc, ghost items: seq<Json>)
    requires InArrayOf(j, at, items[..|items|])
    modifies j
    ensures j.Valid() && j.doc == Some(Deliver(at, Arr(items)))
  {
    assert items[..|items|] == items;
    assert Pop(Push(at, InArray(items))) == at;
    assert Agrees(j.State(), Push(at, InArray(items)));
    j.WriteEndArray();
  }

  method WriteRam(j: Stream, r: RamSection, ghost base: Doc)
    requires At(j, base)
    modifies j
    ensures j.Valid() && j.doc == Some(Deliver(base, Obj(RamMembers(r))))
  {
    ghost var all, n := RamMembers(r), 0;
    Begin(j, base, all);
    n := Kv(j, Int("buffer_bytes_per_thread", r.bufferBytes), base, all, n);
    n := Kv(j, Int("max_threads_tested", r.maxThreads), base, all, n);
    n := Kv(j, Real("single_thread_read_gbs", r.singleThread), base, all, n);
    n := Kv(j, Int("read_saturation_threads", r.saturationThreads), base, all, n);
    n := Kv(j, Real("read_saturation_gbs", r.saturation), base, all, n);
    n := WriteScaling(j, "read_scaling", r.read, base, all, n);
    n := WriteScaling(j, "write_plain_scaling", r.writePlain, base, all, n);
    n := WriteScaling(j, "write_nt_scaling", r.writeNt, base, all, n);
    End(j, base, all, n);
  }

  method WriteLatency(j: Stream, r: LatencySection, ghost base: Doc)
    requires At(j, base)
    modifies j
    ensures j.Valid() && j.doc == Some(Deliver(base, Obj(LatencyMembers(r))))
  {
    ghost var all, n := LatencyMembers(r), 0;
    Begin(j, base, all);
    n := Kv(j, Int("footprint_bytes", r.footprint), base, all, n);
    n := Kv(j, Real("dependent_chain_latency_ns", r.chainNs), base, all, n);
    n := Kv(j, Int("mlp_plateau_streams", r.plateauStreams), base, all, n);
    n := Kv(j, Real("mlp_plateau_bandwidth_gbs", r.plateau), base, all, n);
    n := Kv(j, Real("implied_outstanding_requests", r.implied), base, all, n);
    n := WriteMlp(j, r.scaling, base, all, n);
    End(j, base, all, n);
  }

  method WriteMlp(j: Stream, points: seq<MlpPoint>, ghost base: Doc,
               ghost all: seq<Member>, ghost n: nat)
    returns (ghost n': nat)
    requires n < |all| && all[n] == Member("mlp_scaling", Arr(MlpTrees(points))) && InObjectOf(j, base, all[..n])
    modifies j
    ensures n' == n + 1 && InObjectOf(j, base, all[..n'])
  {
    n' := n + 1;
    ghost var at, items := Keyed(base, all[..n], "mlp_scaling"), MlpTrees(points);
    StartMember(j, "mlp_scaling", base, all[..n]);
    BeginArray(j, at, items);
    for i := 0 to |points|
      invariant InArrayOf(j, at, items[..i])
    {
      WriteMlpPoint(j, points[i], Push(at, InArray(items[..i])));
      ItemDelivered(at, items, i);
    }
    EndArray(j, at, items);
    MemberDelivered(base, all, n);
  }

  method WriteMlpPoint(j: Stream, p: MlpPoint, ghost base: Doc)
    requires At(j, base)
    modifies j
    ensures j.Valid() && j.doc == Some(Deliver(base, Obj(MlpMembers(p))))
  {
    ghost var all, n := MlpMembers(p), 0;
    Begin(j, base, all);
    n := Kv(j, Int("streams", p.streams), base, all, n);
    n := Kv(j, Real("bandwidth_gbs", p.bandwidth), base, all, n);
    End(j, base, all, n);
  }

  method WriteNote(j: Stream, note: string, ghost base: Doc, ghost all: seq<Member>, ghost n: nat)
    returns (ghost n': nat)
    requires note != "" ==> n < |all| && all[n] == Text("note", note)
    requires n <= |all| && InObjectOf(j, base, all[..n])
    modifies j
    ensures n' == n + |Note(note)| <= |all| && InObjectOf(j, base, all[..n'])
  {
    n' := n;
    if note != "" {
      n' := Kv(j, Text("note", note), base, all, n);
    }
  }

  method WriteDisk(j: Stream, r: DiskSection, ghost base: Doc)
    requires At(j, base)
    modifies j
    ensures j.Valid() && j.doc == Some(Deliver(base, Obj(DiskMembers(r))))
  {
    ghost var all, n := DiskMembers(r), 0;
    Begin(j, base, all);
    n := Kv(j, Text("file_path", r.filePath), base, all, n);
    n := Kv(j, Int("file_size_bytes", r.fileSize), base, all, n);
    n := Kv(j, Flag("used_o_direct", r.oDirect), base, all, n);
    n := WriteNote(j, r.note, base, all, n);
    n := Kv(j, Real("sequential_read_gbs", r.sequential), base, all, n);
    n := Kv(j, Real("random4k_iops", r.iops), base, all, n);
    n := Kv(j, Real("random4k_bandwidth_mbs", r.bandwidth), base, all, n);
    n := Kv(j, Real("random4k_avg_latency_us", r.latency), base, all, n);
    End(j, base, all, n);
  }

  method WriteCompute(j: Stream, r: ComputeSection, ghost base: Doc)
    requires At(j, base)
    modifies j
    ensures j.Valid() && j.doc == Some(Deliver(base, Obj(ComputeMembers(r))))
  {
    ghost var all, n := ComputeMembers(r), 0;
    Begin(j, base, all);
    n := Kv(j, Flag("fp32_fma_available", r.fp32), base, all, n);
    n := Kv(j, Real("fp32_fma_gflops", r.gflops), base, all, n);
    n := Kv(j, Flag("int8_vnni_available", r.int8), base, all, n);
    n := Kv(j, Real("int8_vnni_gops", r.gops), base, all, n);
    End(j, base, all, n);
  }

  method WriteHugepage(j: Stream, r: HugepageSection, ghost base: Doc)
    requires At(j, base)
    modifies j
    ensures j.Valid() && j.doc == Some(Deliver(base, Obj(HugepageMembers(r))))
  {
    ghost var all, n := HugepageMembers(r), 0;
    Begin(j, base, all);
    n := Kv(j, Flag("ran", r.ran), base, all, n);
    n := WriteNote(j, r.note, base, all, n);
    assert all[n..] == HugepageFigures(r);
    n := WriteHugepageFigures(j, r, base, all, n);
    End(j, base, all, n);
  }

  /** The members behind the optional note. */
  method WriteHugepageFigures(j: Stream, r: HugepageSection, ghost base: Doc, ghost all: seq<Member>, ghost n: nat)
    returns (ghost n': nat)
    requires n <= |all| && all[n..] == HugepageFigures(r) && InObjectOf(j, base, all[..n])
    modifies j
    ensures n' == |all| && InObjectOf(j, base, all[..n'])
  {
    ghost var f := HugepageFigures(r);
    assert forall k :: 0 <= k < |f| ==> all[n + k] == f[k];
    n' := Kv(j, Int("footprint_bytes", r.footprint), base, all, n);
    n' := Kv(j, Real("baseline_4k_latency_ns", r.baseLatency), base, all, n');
    n' := Kv(j, Real("hugepage_latency_ns", r.hugeLatency), base, all, n');
    n' := Kv(j, Flag("hugepage_confirmed", r.confirmed), base, all, n');
    n' := Kv(j, Real("latency_reduction_pct", r.latencyReduction), base, all, n');
    n' := Kv(j, Real("baseline_4k_seq_gbs", r.baseSequential), base, all, n');
    n' := Kv(j, Real("hugepage_seq_gbs", r.hugeSequential), base, all, n');
    n' := Kv(j, Real("seq_gain_pct", r.sequentialGain), base, all, n');
  }

  /** A present section's key and object are the n-th member of the report. */
  predicate SectionAt(all: seq<Member>, n: nat, key: string, part: Option<seq<Member>>) {
    n + |Section(key, part)| <= |all| && (part.Some? ==> all[n] == Member(key, Obj(part.value)))
  }

  method WriteRamSection(j: Stream, r: Report, ghost all: seq<Member>, ghost n: nat) returns (ghost n': nat)
    requires SectionAt(all, n, "ram", RamPart(r)) && InObjectOf(j, EMPTY, all[..n])
    modifies j
    ensures n' == n + |Section("ram", RamPart(r))| && InObjectOf(j, EMPTY, all[..n'])
  {
    n' := n;
    if r.ram.Some? {
      StartMember(j, "ram", EMPTY, all[..n]);
      WriteRam(j, r.ram.value, Keyed(EMPTY, all[..n], "ram"));
      MemberDelivered(EMPTY, all, n);
      n' := n + 1;
    }
  }

  method WriteLatencySection(j: Stream, r: Report, ghost all: seq<Member>, ghost n: nat) returns (ghost n': nat)
    requires SectionAt(all, n, "latency", LatencyPart(r)) && InObjectOf(j, EMPTY, all[..n])
    modifies j
    ensures n' == n + |Section("latency", LatencyPart(r))| && InObjectOf(j, EMPTY, all[..n'])
  {
    n' := n;
    if r.latency.Some? {
      StartMember(j, "latency", EMPTY, all[..n]);
      WriteLatency(j, r.latency.value, Keyed(EMPTY, all[..n], "latency"));
      MemberDelivered(EMPTY, all, n);
      n' := n + 1;
    }
  }

  method WriteDiskSection(j: Stream, r: Report, ghost all: seq<Member>, ghost n: nat) returns (ghost n': nat)
    requires SectionAt(all, n, "disk", DiskPart(r)) && InObjectOf(j, EMPTY, all[..n])
    modifies j
    ensures n' == n + |Section("disk", DiskPart(r))| && InObjectOf(j, EMPTY, all[..n'])
  {
    n' := n;
    if r.disk.Some? {
      StartMember(j, "disk", EMPTY, all[..n]);
      WriteDisk(j, r.disk.value, Keyed(EMPTY, all[..n], "disk"));
      MemberDelivered(EMPTY, all, n);
      n' := n + 1;
    }
  }

  method WriteComputeSection(j: Stream, r: Report, ghost all: seq<Member>, ghost n: nat) returns (ghost n': nat)
    requires SectionAt(all, n, "compute", ComputePart(r)) && InObjectOf(j, EMPTY, all[..n])
    modifies j
    ensures n' == n + |Section("compute", ComputePart(r))| && InObjectOf(j, EMPTY, all[..n'])
  {
    n' := n;
    if r.compute.Some? {
      StartMember(j, "compute", EMPTY, all[..n]);
      WriteCompute(j, r.compute.value, Keyed(EMPTY, all[..n], "compute"));
      MemberDelivered(EMPTY, all, n);
      n' := n + 1;
    }
  }

  method WriteHugepageSection(j: Stream, r: Report, ghost all: seq<Member>, ghost n: nat) returns (ghost n': nat)
    requires SectionAt(all, n, "hugepage", HugepagePart(r)) && InObjectOf(j, EMPTY, all[..n])
    modifies j
    ensures n' == n + |Section("hugepage", HugepagePart(r))| && InObjectOf(j, EMPTY, all[..n'])
  {
    n' := n;
    if r.hugepage.Some? {
      StartMember(j, "hugepage", EMPTY, all[..n]);
      WriteHugepage(j, r.hugepage.value, Keyed(EMPTY, all[..n], "hugepage"));
      MemberDelivered(EMPTY, all, n);
      n' := n + 1;
    }
  }

  /** Where the five optional sections stand among the members, one behind the other. */
  predicate SectionsFrom(all: seq<Member>, r: Report, ram: nat) {
    var latency := ram + |Section("ram", RamPart(r))|;
    var disk := latency + |Section("latency", LatencyPart(r))|;
    var compute := disk + |Section("disk", DiskPart(r))|;
    var hugepage := compute + |Section("compute", ComputePart(r))|;
    && |all| == hugepage + |Section("hugepage", HugepagePart(r))|
    && SectionAt(all, ram, "ram", RamPart(r))
    && SectionAt(all, latency, "latency", LatencyPart(r))
    && SectionAt(all, disk, "disk", DiskPart(r))
    && SectionAt(all, compute, "compute", ComputePart(r))
    && SectionAt(all, hugepage, "hugepage", HugepagePart(r))
  }

  lemma SectionPlaces(r: Report, generatedAt: string)
    ensures var all := ReportMembers(r, generatedAt);
      && |all| >= 2 && SectionsFrom(all, r, 2)
      && all[0] == Text("generated_at", generatedAt)
      && all[1] == Member("cpu", Obj(CpuMembers(r.cpu)))
  {
  }

  /** The ram and latency sections, if they ran ... */
  method WriteMemorySections(j: Stream, r: Report, ghost all: seq<Member>, ghost n: nat) returns (ghost n': nat)
    requires n <= |all| && SectionAt(all, n, "ram", RamPart(r))
    requires SectionAt(all, n + |Section("ram", RamPart(r))|, "latency", LatencyPart(r))
    requires InObjectOf(j, EMPTY, all[..n])
    modifies j
    ensures n' == n + |Section("ram", RamPart(r))| + |Section("latency", LatencyPart(r))|
    ensures n' <= |all| && InObjectOf(j, EMPTY, all[..n'])
  {
    n' := WriteRamSection(j, r, all, n);
    n' := WriteLatencySection(j, r, all, n');
  }

  /** ... and the disk, compute and hugepage sections. */
  method WriteOtherSections(j: Stream, r: Report, ghost all: seq<Member>, ghost n: nat) returns (ghost n': nat)
    requires n <= |all| && SectionAt(all, n, "disk", DiskPart(r))
    requires SectionAt(all, n + |Section("disk", DiskPart(r))|, "compute", ComputePart(r))
    requires SectionAt(all, n + |Section("disk", DiskPart(r))| + |Section("compute", ComputePart(r))|,
                       "hugepage", HugepagePart(r))
    requires InObjectOf(j, EMPTY, all[..n])
    modifies j
    ensures n' == n + |Section("disk", DiskPart(r))| + |Section("compute", ComputePart(r))|
                  + |Section("hugepage", HugepagePart(r))|
    ensures n' <= |all| && InObjectOf(j, EMPTY, all[..n'])
  {
    n' := WriteDiskSection(j, r, all, n);
    n' := WriteComputeSection(j, r, all, n');
    n' := WriteHugepageSection(j, r, all, n');
  }

  /** The time stamp and the cpu section, which are always there. */
  method WriteHead(j: Stream, cpu: CpuInfo, generatedAt: string, ghost all: seq<Member>) returns (ghost n': nat)
    requires |all| >= 2 && all[0] == Text("generated_at", generatedAt) && all[1] == Member("cpu", Obj(CpuMembers(cpu)))
    requires InObjectOf(j, EMPTY, all[..0])
    modifies j
    ensures n' == 2 && InObjectOf(j, EMPTY, all[..n'])
  {
    n' := Kv(j, Text("generated_at", generatedAt), EMPTY, all, 0);
    StartMember(j, "cpu", EMPTY, all[..n']);
    WriteCpu(j, cpu, Keyed(EMPTY, all[..n'], "cpu"));
    MemberDelivered(EMPTY, all, n');
    n' := n' + 1;
  }

  /** write_json: the printing of the report's tree, and a newline. */
  method WriteJson(r: Report, generatedAt: string) returns (text: string)
    ensures text == Print(Obj(ReportMembers(r, generatedAt))) + "\n"
  {
    var j := new Stream();
    ghost var all := ReportMembers(r, generatedAt);
    SectionPlaces(r, generatedAt);
    Begin(j, EMPTY, all);
    ghost var n := WriteHead(j, r.cpu, generatedAt, all);
    n := WriteMemorySections(j, r, all, n);
    n := WriteOtherSections(j, r, all, n);
    End(j, EMPTY, all, n);
    assert Agrees(j.State(), Doc([], Some(Obj(all))));
    text := j.out + "\n";
  }
}
