/**
 Looking things up by key in the tree that a reader parses from the report: every figure,
 flag, text and array is under its own key.
 */
module ReportFields {
  import opened Json
  import opened JsonWriter
  import opened JsonParser
  import opened Numerals
  import opened Wrappers
  import opened Report
  import opened ReportReader

  // ----- looking things up in the parsed report

  /** The value of the first member with the key. */
  function Lookup(members: seq<Member>, key: string): Option<Json> {
    if members == [] then None
    else if members[0].key == key then Some(members[0].val)
    else Lookup(members[1..], key)
  }

  function Field(v: Json, key: string): Option<Json> {
    if v.Obj? then Lookup(v.members, key) else None
  }

  lemma {:induction false} LookupFinds(members: seq<Member>, i: nat)
    requires i < |members| && DistinctKeys(members)
    ensures Lookup(members, members[i].key) == Some(members[i].val)
  {
    if i > 0 {
      LookupFinds(members[1..], i - 1);
    }
  }

  lemma {:induction false} LookupConcat(a: seq<Member>, b: seq<Member>, key: string)
    ensures Lookup(a + b, key) == if Lookup(a, key).Some? then Lookup(a, key) else Lookup(b, key)
  {
    if a == [] {
      assert a + b == b;
    } else {
      assert (a + b)[1..] == a[1..] + b;
      LookupConcat(a[1..], b, key);
    }
  }

  function SectionObject(part: Option<seq<Member>>): Option<Json> {
    if part.None? then None else Some(Obj(part.value))
  }

  lemma LookupSection(name: string, part: Option<seq<Member>>, key: string)
    ensures Lookup(Section(name, part), key) == if name == key then SectionObject(part) else None
  {
    assert part.Some? ==> Section(name, part)[1..] == [];
  }

  lemma LookupHead(a: Member, b: Member, key: string)
    requires a.key != key && b.key != key
    ensures Lookup([a, b], key) == None
  {
    assert [a, b][1..] == [b] && [b][1..] == [];
    assert Lookup([b], key) == None;
  }

  /** A section key leads to that section's object, and to nothing if the section did not run. */
  lemma ReportLookup(r: Report, generatedAt: string, key: string)
    requires key != "generated_at" && key != "cpu"
    ensures Lookup(ReportMembers(r, generatedAt), key)
            == if key == "ram" then SectionObject(RamPart(r))
               else if key == "latency" then SectionObject(LatencyPart(r))
               else if key == "disk" then SectionObject(DiskPart(r))
               else if key == "compute" then SectionObject(ComputePart(r))
               else if key == "hugepage" then SectionObject(HugepagePart(r))
               else None
  {
    var a := [Text("generated_at", generatedAt), Member("cpu", Obj(CpuMembers(r.cpu)))];
    var b, c, d := Section("ram", RamPart(r)), Section("latency", LatencyPart(r)), Section("disk", DiskPart(r));
    var e, f := Section("compute", ComputePart(r)), Section("hugepage", HugepagePart(r));
    LookupHead(a[0], a[1], key);
    LookupSection("ram", RamPart(r), key);
    LookupSection("latency", LatencyPart(r), key);
    LookupSection("disk", DiskPart(r), key);
    LookupSection("compute", ComputePart(r), key);
    LookupSection("hugepage", HugepagePart(r), key);
    LookupConcat(a, b, key);
    LookupConcat(a + b, c, key);
    LookupConcat(a + b + c, d, key);
    LookupConcat(a + b + c + d, e, key);
    LookupConcat(a + b + c + d + e, f, key);
  }

  // ----- the leaves a reader finds

  /** A number token that is a numeral of n. */
  predicate IntRead(v: Option<Json>, n: int) {
    v.Some? && v.value.Leaf? && v.value.x.Num? && Denotes(v.value.x.text, n)
  }

  /** The text that the stream printed, or null for NaN and the infinities. */
  predicate RealRead(v: Option<Json>, d: Double) {
    v == Some(if d.Finite? then Leaf(Num(d.text)) else Leaf(Null))
  }

  predicate FlagRead(v: Option<Json>, b: bool) {
    v == Some(Leaf(Bool(b)))
  }

  predicate TextRead(v: Option<Json>, s: string) {
    v == Some(Leaf(Str(s)))
  }

  lemma LookupInt(members: seq<Member>, i: nat, key: string, n: int)
    requires i < |members| && DistinctKeys(members) && members[i] == Int(key, n)
    ensures IntRead(Lookup(members, key), n)
  {
    LookupFinds(members, i);
    IntTextDenotes(n);
  }

  lemma LookupReal(members: seq<Member>, i: nat, key: string, d: Double)
    requires i < |members| && DistinctKeys(members) && members[i] == Real(key, d)
    ensures RealRead(Lookup(members, key), d)
  {
    LookupFinds(members, i);
  }

  lemma LookupFlag(members: seq<Member>, i: nat, key: string, b: bool)
    requires i < |members| && DistinctKeys(members) && members[i] == Flag(key, b)
    ensures FlagRead(Lookup(members, key), b)
  {
    LookupFinds(members, i);
  }

  lemma LookupText(members: seq<Member>, i: nat, key: string, s: string)
    requires i < |members| && DistinctKeys(members) && members[i] == Text(key, s)
    ensures TextRead(Lookup(members, key), s)
  {
    LookupFinds(members, i);
  }

  // ----- the arrays

  predicate PointRead(v: Json, p: ScalingPoint) {
    && IntRead(Field(v, "threads"), p.threads)
    && RealRead(Field(v, "aggregate_gbs"), p.aggregate)
    && RealRead(Field(v, "per_thread_gbs"), p.perThread)
  }

  /** An array with one object for each point, in their order. */
  predicate ScalingRead(v: Option<Json>, points: seq<ScalingPoint>) {
    && v.Some? && v.value.Arr? && |v.value.items| == |points|
    && forall i :: 0 <= i < |points| ==> PointRead(v.value.items[i], points[i])
  }

  predicate RamRead(v: Json, s: RamSection) {
    && ScalingRead(Field(v, "read_scaling"), s.read)
    && ScalingRead(Field(v, "write_plain_scaling"), s.writePlain)
    && ScalingRead(Field(v, "write_nt_scaling"), s.writeNt)
  }

  predicate MlpPointRead(v: Json, p: MlpPoint) {
    && IntRead(Field(v, "streams"), p.streams)
    && RealRead(Field(v, "bandwidth_gbs"), p.bandwidth)
  }

  predicate LatencyRead(v: Json, s: LatencySection) {
    var a := Field(v, "mlp_scaling");
    && a.Some? && a.value.Arr? && |a.value.items| == |s.scaling|
    && forall i :: 0 <= i < |s.scaling| ==> MlpPointRead(a.value.items[i], s.scaling[i])
  }

  lemma PointTreeRead(p: ScalingPoint)
    ensures PointRead(Obj(PointMembers(p)), p)
  {
    var m := PointMembers(p);
    LookupInt(m, 0, "threads", p.threads);
    LookupReal(m, 1, "aggregate_gbs", p.aggregate);
    LookupReal(m, 2, "per_thread_gbs", p.perThread);
  }

  lemma PointTreesRead(points: seq<ScalingPoint>)
    ensures ScalingRead(Some(Arr(PointTrees(points))), points)
  {
    forall i | 0 <= i < |points|
      ensures PointRead(PointTrees(points)[i], points[i])
    {
      PointTreeRead(points[i]);
    }
  }

  lemma RamTreeRead(s: RamSection)
    ensures RamRead(Obj(RamMembers(s)), s)
  {
    var m := RamMembers(s);
    RamUnique(s);
    LookupFinds(m, 5);
    LookupFinds(m, 6);
    LookupFinds(m, 7);
    PointTreesRead(s.read);
    PointTreesRead(s.writePlain);
    PointTreesRead(s.writeNt);
  }

  lemma MlpPointTreeRead(p: MlpPoint)
    ensures MlpPointRead(Obj(MlpMembers(p)), p)
  {
    var m := MlpMembers(p);
    LookupInt(m, 0, "streams", p.streams);
    LookupReal(m, 1, "bandwidth_gbs", p.bandwidth);
  }

  lemma LatencyTreeRead(s: LatencySection)
    ensures LatencyRead(Obj(LatencyMembers(s)), s)
  {
    LatencyUnique(s);
    LookupFinds(LatencyMembers(s), 5);
    forall i | 0 <= i < |s.scaling|
      ensures MlpPointRead(MlpTrees(s.scaling)[i], s.scaling[i])
    {
      MlpPointTreeRead(s.scaling[i]);
    }
  }

  /**
   * In whatever a reader parses, "ram" and "latency" are there exactly when those benches
   * ran, and each array in them has one object for each point of its vector, in order.
   */
  lemma ArraysMatchVectors(r: Report, generatedAt: string, t: Json)
    requires TokensOk(r)
    requires Parse(Print(Obj(ReportMembers(r, generatedAt))) + "\n") == Some(t)
    ensures Field(t, "ram").Some? <==> r.ram.Some?
    ensures r.ram.Some? ==> RamRead(Field(t, "ram").value, r.ram.value)
    ensures Field(t, "latency").Some? <==> r.latency.Some?
    ensures r.latency.Some? ==> LatencyRead(Field(t, "latency").value, r.latency.value)
  {
    ParsedIsReport(r, generatedAt, t);
    ReportLookup(r, generatedAt, "ram");
    ReportLookup(r, generatedAt, "latency");
    if r.ram.Some? {
      RamTreeRead(r.ram.value);
    }
    if r.latency.Some? {
      LatencyTreeRead(r.latency.value);
    }
  }

  // ----- the notes

  function NoteValue(note: string): Option<Json> {
    if note == "" then None else Some(Leaf(Str(note)))
  }

  lemma DiskNoteRead(r: DiskSection)
    ensures Lookup(DiskMembers(r), "note") == NoteValue(r.note)
  {
    DiskNoteIff(r);
    if r.note != "" {
      DiskUnique(r);
      assert DiskMembers(r)[3] == Text("note", r.note);
      LookupFinds(DiskMembers(r), 3);
    } else {
      LookupMisses(DiskMembers(r), "note");
    }
  }

  lemma HugepageNoteRead(r: HugepageSection)
    ensures Lookup(HugepageMembers(r), "note") == NoteValue(r.note)
  {
    HugepageNoteIff(r);
    if r.note != "" {
      HugepageUnique(r);
      assert HugepageMembers(r)[1] == Text("note", r.note);
      LookupFinds(HugepageMembers(r), 1);
    } else {
      LookupMisses(HugepageMembers(r), "note");
    }
  }

  lemma {:induction false} LookupMisses(members: seq<Member>, key: string)
    requires !HasKey(members, key)
    ensures Lookup(members, key) == None
  {
    if members != [] {
      assert members[0].key != key;
      assert forall i :: 0 <= i < |members| - 1 ==> members[1..][i] == members[i + 1];
      LookupMisses(members[1..], key);
    }
  }

  /** A reader finds a note in the disk and hugepage sections exactly when it says something. */
  lemma NotesRead(r: Report, generatedAt: string, t: Json)
    requires TokensOk(r)
    requires Parse(Print(Obj(ReportMembers(r, generatedAt))) + "\n") == Some(t)
    ensures Field(t, "disk").Some? <==> r.disk.Some?
    ensures r.disk.Some? ==> Field(Field(t, "disk").value, "note") == NoteValue(r.disk.value.note)
    ensures Field(t, "hugepage").Some? <==> r.hugepage.Some?
    ensures r.hugepage.Some? ==> Field(Field(t, "hugepage").value, "note") == NoteValue(r.hugepage.value.note)
  {
    ParsedIsReport(r, generatedAt, t);
    ReportLookup(r, generatedAt, "disk");
    ReportLookup(r, generatedAt, "hugepage");
    if r.disk.Some? {
      DiskNoteRead(r.disk.value);
    }
    if r.hugepage.Some? {
      HugepageNoteRead(r.hugepage.value);
    }
  }

  // ----- the figures

  predicate CpuRead(v: Json, c: CpuInfo) {
    && TextRead(Field(v, "model_name"), c.modelName)
    && IntRead(Field(v, "logical_cpus"), c.logicalCpus)
    && IntRead(Field(v, "l1d_bytes_per_core"), c.l1d)
    && IntRead(Field(v, "l2_bytes_per_core"), c.l2)
    && IntRead(Field(v, "l3_bytes_total"), c.l3)
    && CpuVectorsRead(v, c)
    && FlagRead(Field(v, "thp_available"), c.thp)
    && FlagRead(Field(v, "hugetlb_available"), c.hugetlb)
  }

  /** Which vector instructions the machine has. */
  predicate CpuVectorsRead(v: Json, c: CpuInfo) {
    && FlagRead(Field(v, "has_avx2"), c.avx2)
    && FlagRead(Field(v, "has_avx512f"), c.avx512f)
    && FlagRead(Field(v, "has_avx512bw"), c.avx512bw)
    && FlagRead(Field(v, "has_avx512vnni"), c.avx512vnni)
    && FlagRead(Field(v, "has_avx512_bf16"), c.avx512bf16)
  }

  lemma CpuTreeRead(c: CpuInfo)
    ensures CpuRead(Obj(CpuMembers(c)), c)
  {
    CpuSizesTreeRead(c, CpuMembers(c));
    CpuVectorsTreeRead(c, CpuMembers(c));
    CpuPagesTreeRead(c, CpuMembers(c));
  }

  lemma CpuSizesTreeRead(c: CpuInfo, m: seq<Member>)
    requires m == CpuMembers(c)
    ensures TextRead(Lookup(m, "model_name"), c.modelName) && IntRead(Lookup(m, "logical_cpus"), c.logicalCpus)
    ensures IntRead(Lookup(m, "l1d_bytes_per_core"), c.l1d) && IntRead(Lookup(m, "l2_bytes_per_core"), c.l2)
    ensures IntRead(Lookup(m, "l3_bytes_total"), c.l3)
  {
    CpuUnique(c);
    LookupText(m, 0, "model_name", c.modelName);
    LookupInt(m, 1, "logical_cpus", c.logicalCpus);
    LookupInt(m, 2, "l1d_bytes_per_core", c.l1d);
    LookupInt(m, 3, "l2_bytes_per_core", c.l2);
    LookupInt(m, 4, "l3_bytes_total", c.l3);
  }

  lemma CpuVectorsTreeRead(c: CpuInfo, m: seq<Member>)
    requires m == CpuMembers(c)
    ensures CpuVectorsRead(Obj(m), c)
  {
    CpuBaseVectors(c, m);
    CpuNewVectors(c, m);
  }

  lemma CpuBaseVectors(c: CpuInfo, m: seq<Member>)
    requires m == CpuMembers(c)
    ensures FlagRead(Lookup(m, "has_avx2"), c.avx2) && FlagRead(Lookup(m, "has_avx512f"), c.avx512f)
    ensures FlagRead(Lookup(m, "has_avx512bw"), c.avx512bw)
  {
    CpuUnique(c);
    LookupFlag(m, 5, "has_avx2", c.avx2);
    LookupFlag(m, 6, "has_avx512f", c.avx512f);
    LookupFlag(m, 7, "has_avx512bw", c.avx512bw);
  }

  lemma CpuNewVectors(c: CpuInfo, m: seq<Member>)
    requires m == CpuMembers(c)
    ensures FlagRead(Lookup(m, "has_avx512vnni"), c.avx512vnni)
    ensures FlagRead(Lookup(m, "has_avx512_bf16"), c.avx512bf16)
  {
    CpuUnique(c);
    LookupFlag(m, 8, "has_avx512vnni", c.avx512vnni);
    LookupFlag(m, 9, "has_avx512_bf16", c.avx512bf16);
  }

  lemma CpuPagesTreeRead(c: CpuInfo, m: seq<Member>)
    requires m == CpuMembers(c)
    ensures FlagRead(Lookup(m, "thp_available"), c.thp) && FlagRead(Lookup(m, "hugetlb_available"), c.hugetlb)
  {
    CpuUnique(c);
    LookupFlag(m, 10, "thp_available", c.thp);
    LookupFlag(m, 11, "hugetlb_available", c.hugetlb);
  }

  predicate RamFiguresRead(v: Json, s: RamSection) {
    && IntRead(Field(v, "buffer_bytes_per_thread"), s.bufferBytes)
    && IntRead(Field(v, "max_threads_tested"), s.maxThreads)
    && RealRead(Field(v, "single_thread_read_gbs"), s.singleThread)
    && IntRead(Field(v, "read_saturation_threads"), s.saturationThreads)
    && RealRead(Field(v, "read_saturation_gbs"), s.saturation)
  }

  lemma RamFiguresTreeRead(s: RamSection)
    ensures RamFiguresRead(Obj(RamMembers(s)), s)
  {
    var m := RamMembers(s);
    RamUnique(s);
    LookupInt(m, 0, "buffer_bytes_per_thread", s.bufferBytes);
    LookupInt(m, 1, "max_threads_tested", s.maxThreads);
    LookupReal(m, 2, "single_thread_read_gbs", s.singleThread);
    LookupInt(m, 3, "read_saturation_threads", s.saturationThreads);
    LookupReal(m, 4, "read_saturation_gbs", s.saturation);
  }

  predicate LatencyFiguresRead(v: Json, s: LatencySection) {
    && IntRead(Field(v, "footprint_bytes"), s.footprint)
    && RealRead(Field(v, "dependent_chain_latency_ns"), s.chainNs)
    && IntRead(Field(v, "mlp_plateau_streams"), s.plateauStreams)
    && RealRead(Field(v, "mlp_plateau_bandwidth_gbs"), s.plateau)
    && RealRead(Field(v, "implied_outstanding_requests"), s.implied)
  }

  lemma LatencyFiguresTreeRead(s: LatencySection)
    ensures LatencyFiguresRead(Obj(LatencyMembers(s)), s)
  {
    var m := LatencyMembers(s);
    LatencyUnique(s);
    LookupInt(m, 0, "footprint_bytes", s.footprint);
    LookupReal(m, 1, "dependent_chain_latency_ns", s.chainNs);
    LookupInt(m, 2, "mlp_plateau_streams", s.plateauStreams);
    LookupReal(m, 3, "mlp_plateau_bandwidth_gbs", s.plateau);
    LookupReal(m, 4, "implied_outstanding_requests", s.implied);
  }

  predicate DiskFiguresRead(v: Json, s: DiskSection) {
    && TextRead(Field(v, "file_path"), s.filePath)
    && IntRead(Field(v, "file_size_bytes"), s.fileSize)
    && FlagRead(Field(v, "used_o_direct"), s.oDirect)
    && RealRead(Field(v, "sequential_read_gbs"), s.sequential)
    && RealRead(Field(v, "random4k_iops"), s.iops)
    && RealRead(Field(v, "random4k_bandwidth_mbs"), s.bandwidth)
    && RealRead(Field(v, "random4k_avg_latency_us"), s.latency)
  }

  lemma DiskFiguresTreeRead(s: DiskSection)
    ensures DiskFiguresRead(Obj(DiskMembers(s)), s)
  {
    var m, n := DiskMembers(s), 3 + |Note(s.note)|;
    DiskUnique(s);
    LookupText(m, 0, "file_path", s.filePath);
    LookupInt(m, 1, "file_size_bytes", s.fileSize);
    LookupFlag(m, 2, "used_o_direct", s.oDirect);
    LookupReal(m, n, "sequential_read_gbs", s.sequential);
    LookupReal(m, n + 1, "random4k_iops", s.iops);
    LookupReal(m, n + 2, "random4k_bandwidth_mbs", s.bandwidth);
    LookupReal(m, n + 3, "random4k_avg_latency_us", s.latency);
  }

  predicate ComputeRead(v: Json, s: ComputeSection) {
    && FlagRead(Field(v, "fp32_fma_available"), s.fp32)
    && RealRead(Field(v, "fp32_fma_gflops"), s.gflops)
    && FlagRead(Field(v, "int8_vnni_available"), s.int8)
    && RealRead(Field(v, "int8_vnni_gops"), s.gops)
  }

  lemma ComputeTreeRead(s: ComputeSection)
    ensures ComputeRead(Obj(ComputeMembers(s)), s)
  {
    var m := ComputeMembers(s);
    ComputeUnique(s);
    LookupFlag(m, 0, "fp32_fma_available", s.fp32);
    LookupReal(m, 1, "fp32_fma_gflops", s.gflops);
    LookupFlag(m, 2, "int8_vnni_available", s.int8);
    LookupReal(m, 3, "int8_vnni_gops", s.gops);
  }

  predicate HugepageFiguresRead(v: Json, s: HugepageSection) {
    && FlagRead(Field(v, "ran"), s.ran)
    && IntRead(Field(v, "footprint_bytes"), s.footprint)
    && RealRead(Field(v, "baseline_4k_latency_ns"), s.baseLatency)
    && RealRead(Field(v, "hugepage_latency_ns"), s.hugeLatency)
    && FlagRead(Field(v, "hugepage_confirmed"), s.confirmed)
    && RealRead(Field(v, "latency_reduction_pct"), s.latencyReduction)
    && RealRead(Field(v, "baseline_4k_seq_gbs"), s.baseSequential)
    && RealRead(Field(v, "hugepage_seq_gbs"), s.hugeSequential)
    && RealRead(Field(v, "seq_gain_pct"), s.sequentialGain)
  }

  /** The figures stand behind the optional note. */
  lemma HugepagePlaces(s: HugepageSection, k: nat)
    requires k < 8
    ensures |HugepageMembers(s)| == 9 + |Note(s.note)|
    ensures HugepageMembers(s)[1 + |Note(s.note)| + k] == HugepageFigures(s)[k]
  {
  }

  lemma HugepageInts(s: HugepageSection, m: seq<Member>)
    requires m == HugepageMembers(s)
    ensures FlagRead(Lookup(m, "ran"), s.ran) && IntRead(Lookup(m, "footprint_bytes"), s.footprint)
    ensures FlagRead(Lookup(m, "hugepage_confirmed"), s.confirmed)
  {
    HugepageUnique(s);
    var n := 1 + |Note(s.note)|;
    LookupFlag(m, 0, "ran", s.ran);
    HugepagePlaces(s, 0);
    LookupInt(m, n, "footprint_bytes", s.footprint);
    HugepagePlaces(s, 3);
    LookupFlag(m, n + 3, "hugepage_confirmed", s.confirmed);
  }

  lemma HugepageLatencies(s: HugepageSection, m: seq<Member>)
    requires m == HugepageMembers(s)
    ensures RealRead(Lookup(m, "baseline_4k_latency_ns"), s.baseLatency)
    ensures RealRead(Lookup(m, "hugepage_latency_ns"), s.hugeLatency)
    ensures RealRead(Lookup(m, "latency_reduction_pct"), s.latencyReduction)
  {
    HugepageUnique(s);
    var n := 1 + |Note(s.note)|;
    HugepagePlaces(s, 1);
    LookupReal(m, n + 1, "baseline_4k_latency_ns", s.baseLatency);
    HugepagePlaces(s, 2);
    LookupReal(m, n + 2, "hugepage_latency_ns", s.hugeLatency);
    HugepagePlaces(s, 4);
    LookupReal(m, n + 4, "latency_reduction_pct", s.latencyReduction);
  }

  lemma HugepageBandwidths(s: HugepageSection, m: seq<Member>)
    requires m == HugepageMembers(s)
    ensures RealRead(Lookup(m, "baseline_4k_seq_gbs"), s.baseSequential)
    ensures RealRead(Lookup(m, "hugepage_seq_gbs"), s.hugeSequential)
    ensures RealRead(Lookup(m, "seq_gain_pct"), s.sequentialGain)
  {
    HugepageUnique(s);
    var n := 1 + |Note(s.note)|;
    HugepagePlaces(s, 5);
    LookupReal(m, n + 5, "baseline_4k_seq_gbs", s.baseSequential);
    HugepagePlaces(s, 6);
    LookupReal(m, n + 6, "hugepage_seq_gbs", s.hugeSequential);
    HugepagePlaces(s, 7);
    LookupReal(m, n + 7, "seq_gain_pct", s.sequentialGain);
  }

  lemma HugepageFiguresTreeRead(s: HugepageSection)
    ensures HugepageFiguresRead(Obj(HugepageMembers(s)), s)
  {
    HugepageInts(s, HugepageMembers(s));
    HugepageLatencies(s, HugepageMembers(s));
    HugepageBandwidths(s, HugepageMembers(s));
  }

  /** The time stamp and the cpu object come first, whatever else is in the report. */
  lemma HeadRead(r: Report, generatedAt: string, t: Json)
    requires TokensOk(r)
    requires Parse(Print(Obj(ReportMembers(r, generatedAt))) + "\n") == Some(t)
    ensures TextRead(Field(t, "generated_at"), generatedAt)
    ensures Field(t, "cpu").Some? && CpuRead(Field(t, "cpu").value, r.cpu)
  {
    ParsedIsReport(r, generatedAt, t);
    var all := ReportMembers(r, generatedAt);
    SectionPlaces(r, generatedAt);
    KeysDistinct(r, generatedAt);
    LookupFinds(all, 0);
    LookupFinds(all, 1);
    CpuTreeRead(r.cpu);
  }

  /** Every figure of the ram and latency sections is found under its own key. */
  lemma MemoryFiguresRead(r: Report, generatedAt: string, t: Json)
    requires TokensOk(r)
    requires Parse(Print(Obj(ReportMembers(r, generatedAt))) + "\n") == Some(t)
    ensures r.ram.Some? ==> Field(t, "ram").Some? && RamFiguresRead(Field(t, "ram").value, r.ram.value)
    ensures r.latency.Some? ==>
      Field(t, "latency").Some? && LatencyFiguresRead(Field(t, "latency").value, r.latency.value)
  {
    ParsedIsReport(r, generatedAt, t);
    ReportLookup(r, generatedAt, "ram");
    ReportLookup(r, generatedAt, "latency");
    if r.ram.Some? {
      RamFiguresTreeRead(r.ram.value);
    }
    if r.latency.Some? {
      LatencyFiguresTreeRead(r.latency.value);
    }
  }

  /** And so is every figure of the disk, compute and hugepage sections. */
  lemma OtherFiguresRead(r: Report, generatedAt: string, t: Json)
    requires TokensOk(r)
    requires Parse(Print(Obj(ReportMembers(r, generatedAt))) + "\n") == Some(t)
    ensures r.disk.Some? ==> Field(t, "disk").Some? && DiskFiguresRead(Field(t, "disk").value, r.disk.value)
    ensures Field(t, "compute").Some? <==> r.compute.Some?
    ensures r.compute.Some? ==> ComputeRead(Field(t, "compute").value, r.compute.value)
    ensures r.hugepage.Some? ==>
      Field(t, "hugepage").Some? && HugepageFiguresRead(Field(t, "hugepage").value, r.hugepage.value)
  {
    ParsedIsReport(r, generatedAt, t);
    ReportLookup(r, generatedAt, "disk");
    ReportLookup(r, generatedAt, "compute");
    ReportLookup(r, generatedAt, "hugepage");
    if r.disk.Some? {
      DiskFiguresTreeRead(r.disk.value);
    }
    if r.compute.Some? {
      ComputeTreeRead(r.compute.value);
    }
    if r.hugepage.Some? {
      HugepageFiguresTreeRead(r.hugepage.value);
    }
  }
}
