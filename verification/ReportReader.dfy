/**
 What a reader of the JSON report gets: the whole tree back, the sections that ran in
 order, and no key twice.
 */
module ReportReader {
  import opened Json
  import opened JsonWriter
  import opened JsonParser
  import opened Wrappers
  import opened Report

  // ----- keys

  predicate DistinctKeys(members: seq<Member>) {
    forall i, j :: 0 <= i < j < |members| ==> members[i].key != members[j].key
  }

  /** No object in the tree has the same key twice. */
  predicate UniqueKeys(v: Json) {
    match v
    case Leaf(x) => true
    case Arr(items) => forall i :: 0 <= i < |items| ==> UniqueKeys(items[i])
    case Obj(members) => DistinctKeys(members) && forall i :: 0 <= i < |members| ==> UniqueKeys(members[i].val)
  }

  lemma CpuUnique(c: CpuInfo)
    ensures UniqueKeys(Obj(CpuMembers(c)))
  {
  }

  lemma RamUnique(r: RamSection)
    ensures UniqueKeys(Obj(RamMembers(r)))
  {
    PointsUnique(r.read);
    PointsUnique(r.writePlain);
    PointsUnique(r.writeNt);
  }

  lemma PointsUnique(points: seq<ScalingPoint>)
    ensures UniqueKeys(Arr(PointTrees(points)))
  {
  }

  lemma LatencyUnique(r: LatencySection)
    ensures UniqueKeys(Obj(LatencyMembers(r)))
  {
    assert UniqueKeys(Arr(MlpTrees(r.scaling)));
  }

  lemma DiskUnique(r: DiskSection)
    ensures UniqueKeys(Obj(DiskMembers(r)))
  {
  }

  lemma ComputeUnique(r: ComputeSection)
    ensures UniqueKeys(Obj(ComputeMembers(r)))
  {
  }

  lemma HugepageUnique(r: HugepageSection)
    ensures UniqueKeys(Obj(HugepageMembers(r)))
  {
  }

  lemma AllUnique(a: seq<Member>, b: seq<Member>)
    requires forall i :: 0 <= i < |a| ==> UniqueKeys(a[i].val)
    requires forall i :: 0 <= i < |b| ==> UniqueKeys(b[i].val)
    ensures forall i :: 0 <= i < |a + b| ==> UniqueKeys((a + b)[i].val)
  {
  }

  ghost predicate PartUnique(part: Option<seq<Member>>) {
    part.Some? ==> UniqueKeys(Obj(part.value))
  }

  lemma PartsUnique(r: Report)
    ensures PartUnique(RamPart(r)) && PartUnique(LatencyPart(r)) && PartUnique(DiskPart(r))
    ensures PartUnique(ComputePart(r)) && PartUnique(HugepagePart(r))
  {
    if r.ram.Some? { RamUnique(r.ram.value); }
    if r.latency.Some? { LatencyUnique(r.latency.value); }
    if r.disk.Some? { DiskUnique(r.disk.value); }
    if r.compute.Some? { ComputeUnique(r.compute.value); }
    if r.hugepage.Some? { HugepageUnique(r.hugepage.value); }
  }

  /** No key occurs twice in any object of the report, whichever sections ran. */
  lemma ReportUnique(r: Report, generatedAt: string)
    ensures UniqueKeys(Obj(ReportMembers(r, generatedAt)))
  {
    CpuUnique(r.cpu);
    PartsUnique(r);
    KeysDistinct(r, generatedAt);
    var a := [Text("generated_at", generatedAt), Member("cpu", Obj(CpuMembers(r.cpu)))];
    var b, c, d := Section("ram", RamPart(r)), Section("latency", LatencyPart(r)), Section("disk", DiskPart(r));
    var e, f := Section("compute", ComputePart(r)), Section("hugepage", HugepagePart(r));
    AllUnique(a, b);
    AllUnique(a + b, c);
    AllUnique(a + b + c, d);
    AllUnique(a + b + c + d, e);
    AllUnique(a + b + c + d + e, f);
  }

  function Keys(members: seq<Member>): seq<string> {
    seq(|members|, i requires 0 <= i < |members| => members[i].key)
  }

  function KeyIf(present: bool, key: string): seq<string> {
    if present then [key] else []
  }

  function SectionKeys(r: Report): seq<string> {
    ["generated_at", "cpu"] + KeyIf(r.ram.Some?, "ram") + KeyIf(r.latency.Some?, "latency")
    + KeyIf(r.disk.Some?, "disk") + KeyIf(r.compute.Some?, "compute") + KeyIf(r.hugepage.Some?, "hugepage")
  }

  lemma KeysConcat(a: seq<Member>, b: seq<Member>)
    ensures Keys(a + b) == Keys(a) + Keys(b)
  {
  }

  /** The report's keys are those of the sections that ran, always in the same order. */
  lemma SectionsInOrder(r: Report, generatedAt: string)
    ensures Keys(ReportMembers(r, generatedAt)) == SectionKeys(r)
  {
    var a := [Text("generated_at", generatedAt), Member("cpu", Obj(CpuMembers(r.cpu)))];
    var b, c, d := Section("ram", RamPart(r)), Section("latency", LatencyPart(r)), Section("disk", DiskPart(r));
    var e, f := Section("compute", ComputePart(r)), Section("hugepage", HugepagePart(r));
    KeysConcat(a, b);
    KeysConcat(a + b, c);
    KeysConcat(a + b + c, d);
    KeysConcat(a + b + c + d, e);
    KeysConcat(a + b + c + d + e, f);
    assert Keys(a) == ["generated_at", "cpu"];
    assert Keys(b) == KeyIf(r.ram.Some?, "ram");
    assert Keys(c) == KeyIf(r.latency.Some?, "latency");
    assert Keys(d) == KeyIf(r.disk.Some?, "disk");
    assert Keys(e) == KeyIf(r.compute.Some?, "compute");
    assert Keys(f) == KeyIf(r.hugepage.Some?, "hugepage");
  }

  /** The five optional keys, in an order that leaving some out cannot disturb. */
  function Rank(key: string): nat {
    if key == "generated_at" then 0 else if key == "cpu" then 1 else if key == "ram" then 2
    else if key == "latency" then 3 else if key == "disk" then 4 else if key == "compute" then 5 else 6
  }

  predicate RanksBelow(keys: seq<string>, top: nat) {
    && (forall i :: 0 <= i < |keys| ==> Rank(keys[i]) < top)
    && (forall i, j :: 0 <= i < j < |keys| ==> Rank(keys[i]) < Rank(keys[j]))
  }

  lemma RankNext(keys: seq<string>, present: bool, key: string)
    requires RanksBelow(keys, Rank(key))
    ensures RanksBelow(keys + KeyIf(present, key), Rank(key) + 1)
  {
  }

  lemma SectionKeysRanked(r: Report)
    ensures RanksBelow(SectionKeys(r), 7)
  {
    var k0 := ["generated_at", "cpu"];
    var k1 := k0 + KeyIf(r.ram.Some?, "ram");
    var k2 := k1 + KeyIf(r.latency.Some?, "latency");
    var k3 := k2 + KeyIf(r.disk.Some?, "disk");
    var k4 := k3 + KeyIf(r.compute.Some?, "compute");
    RankNext(k0, r.ram.Some?, "ram");
    RankNext(k1, r.latency.Some?, "latency");
    RankNext(k2, r.disk.Some?, "disk");
    RankNext(k3, r.compute.Some?, "compute");
    RankNext(k4, r.hugepage.Some?, "hugepage");
  }

  lemma RankedKeysDistinct(members: seq<Member>)
    requires RanksBelow(Keys(members), 7)
    ensures DistinctKeys(members)
  {
    assert forall i :: 0 <= i < |members| ==> members[i].key == Keys(members)[i];
  }

  lemma KeysDistinct(r: Report, generatedAt: string)
    ensures DistinctKeys(ReportMembers(r, generatedAt))
  {
    SectionsInOrder(r, generatedAt);
    SectionKeysRanked(r);
    RankedKeysDistinct(ReportMembers(r, generatedAt));
  }

  predicate HasKey(members: seq<Member>, key: string) {
    exists i :: 0 <= i < |members| && members[i].key == key
  }

  /** "note" is there exactly when it says something. */
  lemma DiskNoteIff(r: DiskSection)
    ensures HasKey(DiskMembers(r), "note") <==> r.note != ""
  {
    assert r.note != "" ==> DiskMembers(r)[3] == Text("note", r.note);
  }

  lemma HugepageNoteIff(r: HugepageSection)
    ensures HasKey(HugepageMembers(r), "note") <==> r.note != ""
  {
    assert r.note != "" ==> HugepageMembers(r)[1] == Text("note", r.note);
  }

  // ----- the round trip

  predicate DoubleOk(v: Double) {
    v.Finite? ==> IsNumber(v.text)
  }

  predicate PointsOk(points: seq<ScalingPoint>) {
    forall i :: 0 <= i < |points| ==> DoubleOk(points[i].aggregate) && DoubleOk(points[i].perThread)
  }

  /** The stream prints every finite double as a JSON number. */
  predicate TokensOk(r: Report) {
    && (r.ram.Some? ==> var s := r.ram.value;
          DoubleOk(s.singleThread) && DoubleOk(s.saturation) && PointsOk(s.read) && PointsOk(s.writePlain)
          && PointsOk(s.writeNt))
    && (r.latency.Some? ==> var s := r.latency.value;
          DoubleOk(s.chainNs) && DoubleOk(s.plateau) && DoubleOk(s.implied)
          && forall i :: 0 <= i < |s.scaling| ==> DoubleOk(s.scaling[i].bandwidth))
    && (r.disk.Some? ==> var s := r.disk.value;
          DoubleOk(s.sequential) && DoubleOk(s.iops) && DoubleOk(s.bandwidth) && DoubleOk(s.latency))
    && (r.compute.Some? ==> DoubleOk(r.compute.value.gflops) && DoubleOk(r.compute.value.gops))
    && (r.hugepage.Some? ==> var s := r.hugepage.value;
          DoubleOk(s.baseLatency) && DoubleOk(s.hugeLatency) && DoubleOk(s.latencyReduction)
          && DoubleOk(s.baseSequential) && DoubleOk(s.hugeSequential) && DoubleOk(s.sequentialGain))
  }

  /** None of the strings that come from the machine or the user holds a control character. */
  predicate StringsPlain(r: Report, generatedAt: string) {
    && NoControls(generatedAt)
    && NoControls(r.cpu.modelName)
    && (r.disk.Some? ==> NoControls(r.disk.value.filePath) && NoControls(r.disk.value.note))
    && (r.hugepage.Some? ==> NoControls(r.hugepage.value.note))
  }

  /** Well-formed leaf members: their numbers are tokens, and only a text can be unclean. */
  lemma IntMember(key: string, n: int)
    ensures NumbersOk(Int(key, n).val) && Clean(Int(key, n).val)
  {
    IntTextIsNumber(n);
  }

  lemma AllIntMembers()
    ensures forall key, n :: NumbersOk(Int(key, n).val) && Clean(Int(key, n).val)
  {
    forall key, n
      ensures NumbersOk(Int(key, n).val) && Clean(Int(key, n).val)
    {
      IntMember(key, n);
    }
  }

  // No key of any section holds a control character; keys are taken a few at a time.

  lemma CpuKeyLetters1()
    ensures NoControls("model_name") && NoControls("logical_cpus") && NoControls("l1d_bytes_per_core")
    ensures NoControls("l2_bytes_per_core") && NoControls("l3_bytes_total") && NoControls("has_avx2")
  {
  }

  lemma CpuKeyLetters2()
    ensures NoControls("has_avx512f") && NoControls("has_avx512bw") && NoControls("has_avx512vnni")
    ensures NoControls("has_avx512_bf16") && NoControls("thp_available") && NoControls("hugetlb_available")
  {
  }

  lemma CpuKeysPlain(c: CpuInfo)
    ensures KeysPlain(CpuMembers(c))
  {
    CpuKeyLetters1();
    CpuKeyLetters2();
  }

  lemma CpuValues(c: CpuInfo)
    ensures ValuesClean(CpuMembers(c)) <==> NoControls(c.modelName)
  {
    AllIntMembers();
    assert CpuMembers(c)[0].val == Leaf(Str(c.modelName));
  }

  lemma CpuNumbers(c: CpuInfo)
    ensures MemberNumbersOk(CpuMembers(c))
  {
    AllIntMembers();
    MemberNumbersIff(CpuMembers(c));
  }

  lemma PointSound(p: ScalingPoint)
    ensures CleanMembers(PointMembers(p))
    ensures DoubleOk(p.aggregate) && DoubleOk(p.perThread) ==> MemberNumbersOk(PointMembers(p))
  {
    AllIntMembers();
    CleanMembersIff(PointMembers(p));
    MemberNumbersIff(PointMembers(p));
  }

  lemma PointsSound(points: seq<ScalingPoint>)
    requires PointsOk(points)
    ensures NumbersOk(Arr(PointTrees(points))) && Clean(Arr(PointTrees(points)))
  {
    var items := PointTrees(points);
    forall i | 0 <= i < |points|
      ensures Clean(items[i]) && NumbersOk(items[i])
    {
      PointSound(points[i]);
    }
    ItemNumbersIff(items);
    CleanItemsIff(items);
  }

  lemma RamKeyLetters1()
    ensures NoControls("buffer_bytes_per_thread") && NoControls("max_threads_tested")
    ensures NoControls("single_thread_read_gbs")
  {
  }

  lemma RamKeyLetters2()
    ensures NoControls("read_saturation_threads") && NoControls("read_saturation_gbs") && NoControls("read_scaling")
    ensures NoControls("write_plain_scaling") && NoControls("write_nt_scaling")
  {
  }

  lemma RamKeysPlain(r: RamSection)
    ensures KeysPlain(RamMembers(r))
  {
    RamKeyLetters1();
    RamKeyLetters2();
  }

  lemma RamValues(r: RamSection)
    requires PointsOk(r.read) && PointsOk(r.writePlain) && PointsOk(r.writeNt)
    ensures ValuesClean(RamMembers(r))
  {
    AllIntMembers();
    PointsSound(r.read);
    PointsSound(r.writePlain);
    PointsSound(r.writeNt);
  }

  lemma RamNumbers(r: RamSection)
    requires DoubleOk(r.singleThread) && DoubleOk(r.saturation)
    requires PointsOk(r.read) && PointsOk(r.writePlain) && PointsOk(r.writeNt)
    ensures MemberNumbersOk(RamMembers(r))
  {
    AllIntMembers();
    PointsSound(r.read);
    PointsSound(r.writePlain);
    PointsSound(r.writeNt);
    MemberNumbersIff(RamMembers(r));
  }

  lemma MlpPointSound(p: MlpPoint)
    requires DoubleOk(p.bandwidth)
    ensures CleanMembers(MlpMembers(p)) && MemberNumbersOk(MlpMembers(p))
  {
    AllIntMembers();
    CleanMembersIff(MlpMembers(p));
    MemberNumbersIff(MlpMembers(p));
  }

  lemma MlpPointsSound(points: seq<MlpPoint>)
    requires forall i :: 0 <= i < |points| ==> DoubleOk(points[i].bandwidth)
    ensures NumbersOk(Arr(MlpTrees(points))) && Clean(Arr(MlpTrees(points)))
  {
    var items := MlpTrees(points);
    forall i | 0 <= i < |items|
      ensures Clean(items[i]) && NumbersOk(items[i])
    {
      MlpPointSound(points[i]);
    }
    ItemNumbersIff(items);
    CleanItemsIff(items);
  }

  lemma LatencyKeyLetters1()
    ensures NoControls("footprint_bytes") && NoControls("dependent_chain_latency_ns")
    ensures NoControls("mlp_plateau_streams")
  {
  }

  lemma LatencyKeyLetters2()
    ensures NoControls("mlp_plateau_bandwidth_gbs") && NoControls("implied_outstanding_requests")
    ensures NoControls("mlp_scaling")
  {
  }

  lemma LatencyKeysPlain(r: LatencySection)
    ensures KeysPlain(LatencyMembers(r))
  {
    LatencyKeyLetters1();
    LatencyKeyLetters2();
  }

  lemma LatencyValues(r: LatencySection)
    requires DoubleOk(r.chainNs) && DoubleOk(r.plateau) && DoubleOk(r.implied)
    requires forall i :: 0 <= i < |r.scaling| ==> DoubleOk(r.scaling[i].bandwidth)
    ensures MemberNumbersOk(LatencyMembers(r)) && ValuesClean(LatencyMembers(r))
  {
    AllIntMembers();
    MlpPointsSound(r.scaling);
    MemberNumbersIff(LatencyMembers(r));
  }

  lemma DiskKeyLetters1()
    ensures NoControls("file_path") && NoControls("file_size_bytes") && NoControls("used_o_direct")
  {
  }

  lemma DiskKeyLetters2()
    ensures NoControls("note") && NoControls("sequential_read_gbs") && NoControls("random4k_iops")
    ensures NoControls("random4k_bandwidth_mbs") && NoControls("random4k_avg_latency_us")
  {
  }

  lemma DiskKeysPlain(r: DiskSection)
    ensures KeysPlain(DiskMembers(r))
  {
    DiskKeyLetters1();
    DiskKeyLetters2();
  }

  lemma DiskValues(r: DiskSection)
    requires DoubleOk(r.sequential) && DoubleOk(r.iops) && DoubleOk(r.bandwidth) && DoubleOk(r.latency)
    ensures MemberNumbersOk(DiskMembers(r))
    ensures ValuesClean(DiskMembers(r)) <==> NoControls(r.filePath) && NoControls(r.note)
  {
    IntMember("file_size_bytes", r.fileSize);
    MemberNumbersIff(DiskMembers(r));
    assert DiskMembers(r)[0].val == Leaf(Str(r.filePath));
    assert r.note != "" ==> DiskMembers(r)[3].val == Leaf(Str(r.note));
  }

  lemma ComputeKeyLetters()
    ensures NoControls("fp32_fma_available") && NoControls("fp32_fma_gflops") && NoControls("int8_vnni_available")
    ensures NoControls("int8_vnni_gops")
  {
  }

  lemma ComputeSound(r: ComputeSection)
    requires DoubleOk(r.gflops) && DoubleOk(r.gops)
    ensures MemberNumbersOk(ComputeMembers(r)) && KeysPlain(ComputeMembers(r)) && ValuesClean(ComputeMembers(r))
  {
    ComputeKeyLetters();
    MemberNumbersIff(ComputeMembers(r));
  }

  lemma HugepageKeyLetters1()
    ensures NoControls("ran") && NoControls("note") && NoControls("footprint_bytes")
    ensures NoControls("baseline_4k_latency_ns") && NoControls("hugepage_latency_ns")
    ensures NoControls("hugepage_confirmed")
  {
  }

  lemma HugepageKeyLetters2()
    ensures NoControls("latency_reduction_pct") && NoControls("baseline_4k_seq_gbs") && NoControls("hugepage_seq_gbs")
    ensures NoControls("seq_gain_pct")
  {
  }

  lemma HugepageKeysPlain(r: HugepageSection)
    ensures KeysPlain(HugepageMembers(r))
  {
    HugepageKeyLetters1();
    HugepageKeyLetters2();
  }

  lemma HugepageFigureNumbers(r: HugepageSection)
    requires DoubleOk(r.baseLatency) && DoubleOk(r.hugeLatency) && DoubleOk(r.latencyReduction)
    requires DoubleOk(r.baseSequential) && DoubleOk(r.hugeSequential) && DoubleOk(r.sequentialGain)
    ensures MemberNumbersOk(HugepageFigures(r))
  {
    IntMember("footprint_bytes", r.footprint);
    MemberNumbersIff(HugepageFigures(r));
  }

  lemma HugepageNumbers(r: HugepageSection)
    requires MemberNumbersOk(HugepageFigures(r))
    ensures MemberNumbersOk(HugepageMembers(r))
  {
    var head := [Flag("ran", r.ran)] + Note(r.note);
    MemberNumbersIff(head);
    Concat(head, HugepageFigures(r));
  }

  lemma HugepageValues(r: HugepageSection)
    ensures ValuesClean(HugepageMembers(r)) <==> NoControls(r.note)
  {
    IntMember("footprint_bytes", r.footprint);
    assert r.note != "" ==> HugepageMembers(r)[1].val == Leaf(Str(r.note));
  }

  lemma {:induction false} Concat(a: seq<Member>, b: seq<Member>)
    ensures MemberNumbersOk(a + b) <==> MemberNumbersOk(a) && MemberNumbersOk(b)
    ensures CleanMembers(a + b) <==> CleanMembers(a) && CleanMembers(b)
  {
    if a == [] {
      assert a + b == b;
    } else {
      assert (a + b)[1..] == a[1..] + b;
      Concat(a[1..], b);
    }
  }

  lemma SectionSound(key: string, part: Option<seq<Member>>)
    requires NoControls(key)
    ensures MemberNumbersOk(Section(key, part)) <==> part.Some? ==> MemberNumbersOk(part.value)
    ensures CleanMembers(Section(key, part)) <==> part.Some? ==> CleanMembers(part.value)
  {
    MemberNumbersIff(Section(key, part));
    CleanMembersIff(Section(key, part));
  }

  lemma PlainSectionsSound(r: Report)
    requires TokensOk(r)
    ensures MemberNumbersOk(Section("ram", RamPart(r))) && CleanMembers(Section("ram", RamPart(r)))
    ensures MemberNumbersOk(Section("latency", LatencyPart(r))) && CleanMembers(Section("latency", LatencyPart(r)))
    ensures MemberNumbersOk(Section("compute", ComputePart(r))) && CleanMembers(Section("compute", ComputePart(r)))
  {
    if r.ram.Some? {
      RamKeysPlain(r.ram.value);
      RamValues(r.ram.value);
      RamNumbers(r.ram.value);
      CleanMembersIff(RamMembers(r.ram.value));
    }
    if r.latency.Some? {
      LatencyKeysPlain(r.latency.value);
      LatencyValues(r.latency.value);
      CleanMembersIff(LatencyMembers(r.latency.value));
    }
    if r.compute.Some? {
      ComputeSound(r.compute.value);
      CleanMembersIff(ComputeMembers(r.compute.value));
    }
    SectionSound("ram", RamPart(r));
    SectionSound("latency", LatencyPart(r));
    SectionSound("compute", ComputePart(r));
  }

  lemma NotedSectionsSound(r: Report)
    requires TokensOk(r)
    ensures MemberNumbersOk(Section("disk", DiskPart(r)))
    ensures CleanMembers(Section("disk", DiskPart(r)))
            <==> (r.disk.Some? ==> NoControls(r.disk.value.filePath) && NoControls(r.disk.value.note))
    ensures MemberNumbersOk(Section("hugepage", HugepagePart(r)))
    ensures CleanMembers(Section("hugepage", HugepagePart(r)))
            <==> (r.hugepage.Some? ==> NoControls(r.hugepage.value.note))
  {
    if r.disk.Some? {
      DiskKeysPlain(r.disk.value);
      DiskValues(r.disk.value);
      CleanMembersIff(DiskMembers(r.disk.value));
    }
    if r.hugepage.Some? {
      HugepageKeysPlain(r.hugepage.value);
      HugepageValues(r.hugepage.value);
      HugepageFigureNumbers(r.hugepage.value);
      HugepageNumbers(r.hugepage.value);
      CleanMembersIff(HugepageMembers(r.hugepage.value));
    }
    SectionSound("disk", DiskPart(r));
    SectionSound("hugepage", HugepagePart(r));
  }

  lemma HeadSound(generatedAt: string, c: CpuInfo)
    ensures var head := [Text("generated_at", generatedAt), Member("cpu", Obj(CpuMembers(c)))];
      && MemberNumbersOk(head)
      && (CleanMembers(head) <==> NoControls(generatedAt) && NoControls(c.modelName))
  {
    var head := [Text("generated_at", generatedAt), Member("cpu", Obj(CpuMembers(c)))];
    CpuKeysPlain(c);
    CpuValues(c);
    CpuNumbers(c);
    CleanMembersIff(CpuMembers(c));
    MemberNumbersIff(head);
    CleanMembersIff(head);
    assert head[0].val == Leaf(Str(generatedAt)) && head[1].val == Obj(CpuMembers(c));
  }

  lemma ReportSound(r: Report, generatedAt: string)
    requires TokensOk(r)
    ensures NumbersOk(Obj(ReportMembers(r, generatedAt)))
    ensures Clean(Obj(ReportMembers(r, generatedAt))) <==> StringsPlain(r, generatedAt)
  {
    var a := [Text("generated_at", generatedAt), Member("cpu", Obj(CpuMembers(r.cpu)))];
    var b, c, d := Section("ram", RamPart(r)), Section("latency", LatencyPart(r)), Section("disk", DiskPart(r));
    var e, f := Section("compute", ComputePart(r)), Section("hugepage", HugepagePart(r));
    HeadSound(generatedAt, r.cpu);
    PlainSectionsSound(r);
    NotedSectionsSound(r);
    Concat(a, b);
    Concat(a + b, c);
    Concat(a + b + c, d);
    Concat(a + b + c + d, e);
    Concat(a + b + c + d + e, f);
  }

  /**
   * The file write_json leaves parses to the report's own tree exactly when none of the
   * strings in it holds a control character.
   */
  lemma ReportRoundTripIff(r: Report, generatedAt: string)
    requires TokensOk(r)
    ensures Parse(Print(Obj(ReportMembers(r, generatedAt))) + "\n") == Some(Obj(ReportMembers(r, generatedAt)))
            <==> StringsPlain(r, generatedAt)
  {
    ReportSound(r, generatedAt);
    RoundTripIff(Obj(ReportMembers(r, generatedAt)));
  }

  /** Whatever tree a reader gets out of the file, it is the report's own. */
  lemma ParsedIsReport(r: Report, generatedAt: string, t: Json)
    requires TokensOk(r)
    requires Parse(Print(Obj(ReportMembers(r, generatedAt))) + "\n") == Some(t)
    ensures t == Obj(ReportMembers(r, generatedAt))
  {
    ReportSound(r, generatedAt);
    RoundTripIff(Obj(ReportMembers(r, generatedAt)));
  }

  /** It has the keys of the sections that ran, in order, and no key twice in any object. */
  lemma ParsedKeys(r: Report, generatedAt: string, t: Json)
    requires TokensOk(r)
    requires Parse(Print(Obj(ReportMembers(r, generatedAt))) + "\n") == Some(t)
    ensures t.Obj? && Keys(t.members) == SectionKeys(r) && UniqueKeys(t)
  {
    ParsedIsReport(r, generatedAt, t);
    SectionsInOrder(r, generatedAt);
    ReportUnique(r, generatedAt);
  }
}
