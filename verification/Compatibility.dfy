/** The compatibility rules, their aggregation into a score and a grade, the final grade with or
    without the learned model, and the migration strategy. */
module Compatibility {
  import opened Digits
  import opened Options

  datatype OsType = Linux | Windows | Unknown | OtherOs

  datatype Hypervisor =
    | VmwareWorkstation | Vsphere | VmwareEsxi | HyperV | Kvm | Proxmox | Ovirt | Physical | OtherHypervisor

  datatype DiskFormat = Qcow2 | Raw | Vmdk | Vhd | Vhdx | Iso | OtherFormat

  /** The inputs of the rules. Names are stripped and in lower case; a missing number counts as 0. */
  datatype Vm = Vm(
    cpuCores: Option<int>,
    memoryMb: Option<int>,
    diskGb: Option<int>,
    osType: OsType,
    osName: string,
    osVersion: string,
    hypervisor: Hypervisor,
    diskFormat: Option<DiskFormat>)

  datatype Severity = Blocker | Warning | Info

  datatype Rule = Rule(id: string, passed: bool, severity: Severity, weight: nat)

  function Number(o: Option<int>): int {
    match o case None => 0 case Some(n) => n
  }

  predicate Contains(s: string, part: string) {
    exists k :: 0 <= k <= |s| && part <= s[k..]
  }

  // ----- The operating system ------------------------------------------------------------

  /** The supported distributions in the order they are looked for, with their oldest major version. */
  const DISTROS: seq<(string, nat)> :=
    [("ubuntu", 18), ("debian", 10), ("rhel", 7), ("red hat", 7), ("centos", 7), ("rocky", 8), ("alma", 8),
     ("fedora", 32), ("suse", 12), ("sles", 12), ("opensuse", 15), ("oracle", 7)]

  const WINDOWS_SUPPORTED: seq<string> :=
    ["windows server 2016", "windows server 2019", "windows server 2022", "windows 10", "windows 11"]

  /** The first run of digits in `s`. */
  function FirstDigits(s: string): (d: string)
    ensures forall k :: 0 <= k < |d| ==> IsDigit(d[k])
  {
    if s == "" then "" else if IsDigit(s[0]) then s[..DigitRun(s)] else FirstDigits(s[1..])
  }

  /** The major version: the first number in the version, or else in the name. */
  function LinuxMajor(osName: string, osVersion: string): Option<nat> {
    if FirstDigits(osVersion) != "" then Some(DigitsValue(FirstDigits(osVersion)))
    else if FirstDigits(osName) != "" then Some(DigitsValue(FirstDigits(osName)))
    else None
  }

  /** The state of the digit loop at position `k`: what it has, with what the rest would add. */
  ghost predicate Collected(candidate: string, k: nat, digits: string)
    requires k <= |candidate|
  {
    var rest := candidate[k..];
    if digits == "" then FirstDigits(candidate) == FirstDigits(rest)
    else FirstDigits(candidate) == digits + rest[..DigitRun(rest)]
  }

  lemma CollectedNext(candidate: string, k: nat, digits: string)
    requires k < |candidate| && Collected(candidate, k, digits)
    ensures IsDigit(candidate[k]) ==> Collected(candidate, k + 1, digits + [candidate[k]])
    ensures !IsDigit(candidate[k]) && digits == "" ==> Collected(candidate, k + 1, digits)
    ensures !IsDigit(candidate[k]) && digits != "" ==> FirstDigits(candidate) == digits
  {
    var rest, c := candidate[k..], candidate[k];
    var next := candidate[k + 1..];
    assert rest == [c] + next && rest[1..] == next;
    if IsDigit(c) {
      assert rest[..DigitRun(rest)] == [c] + next[..DigitRun(next)];
      assert digits + ([c] + next[..DigitRun(next)]) == (digits + [c]) + next[..DigitRun(next)];
    }
  }

  /** The digit-collecting loop over one candidate string. */
  method CollectDigits(candidate: string) returns (digits: string)
    ensures digits == FirstDigits(candidate)
  {
    digits := "";
    for k := 0 to |candidate|
      invariant Collected(candidate, k, digits)
    {
      CollectedNext(candidate, k, digits);
      if IsDigit(candidate[k]) {
        digits := digits + [candidate[k]];
      } else if digits != "" {
        return;
      }
    }
  }

  method ExtractLinuxMajor(osName: string, osVersion: string) returns (major: Option<nat>)
    ensures major == LinuxMajor(osName, osVersion)
  {
    var digits := CollectDigits(osVersion);
    if digits != "" { return Some(DigitsValue(digits)); }
    digits := CollectDigits(osName);
    if digits != "" { return Some(DigitsValue(digits)); }
    return None;
  }

  /** The first distribution of the list from position `k` on that occurs in `text`. */
  function FindDistro(text: string, k: nat): (d: Option<(string, nat)>)
    requires k <= |DISTROS|
    decreases |DISTROS| - k
  {
    if k == |DISTROS| then None
    else if Contains(text, DISTROS[k].0) then Some(DISTROS[k]) else FindDistro(text, k + 1)
  }

  /** Guest agents are optional here, so an unknown system is only a warning. */
  predicate SoftOs(h: Hypervisor) { h.HyperV? || h.Kvm? || h.Proxmox? || h.Ovirt? }

  predicate VirtioNative(h: Hypervisor) { h.Kvm? || h.Proxmox? || h.Ovirt? }

  function RuleOsSupported(vm: Vm): Rule {
    var text := vm.osName + " " + vm.osVersion;
    var soft := SoftOs(vm.hypervisor);
    var unknown := if soft then Rule("os_supported", false, Warning, 10) else Rule("os_supported", false, Blocker, 40);
    match vm.osType
    case Linux =>
      (match FindDistro(text, 0)
       case Some((_, minimum)) =>
         var actual := LinuxMajor(vm.osName, vm.osVersion);
         Rule("os_supported", !(actual.Some? && actual.value < minimum), Blocker, 40)
       case None => unknown)
    case Windows => Rule("os_supported", exists k :: 0 <= k < |WINDOWS_SUPPORTED| && Contains(text, WINDOWS_SUPPORTED[k]), Blocker, 40)
    case _ => unknown
  }

  // ----- The other rules -----------------------------------------------------------------

  function RuleCpuMin(vm: Vm): Rule { Rule("cpu_min", Number(vm.cpuCores) >= 1, Blocker, 40) }

  function RuleMemoryMin(vm: Vm): Rule {
    var mem := Number(vm.memoryMb);
    if mem < 512 then Rule("memory_min", false, Blocker, 40)
    else if mem < 1024 then Rule("memory_min", false, Warning, 10)
    else Rule("memory_min", true, Blocker, 40)
  }

  function RuleDiskMin(vm: Vm): Rule { Rule("disk_min", Number(vm.diskGb) >= 10, Warning, 5) }

  function DefaultFormat(h: Hypervisor): DiskFormat {
    match h
    case VmwareWorkstation => Vmdk
    case Vsphere => Vmdk
    case VmwareEsxi => Vmdk
    case HyperV => Vhdx
    case Kvm => Qcow2
    case Proxmox => Qcow2
    case Ovirt => Qcow2
    case Physical => Raw
    case OtherHypervisor => OtherFormat
  }

  function InferDiskFormat(vm: Vm): DiskFormat {
    match vm.diskFormat case Some(f) => f case None => DefaultFormat(vm.hypervisor)
  }

  function RuleDiskFormat(vm: Vm): Rule {
    match InferDiskFormat(vm)
    case Iso => Rule("disk_format", false, Blocker, 40)
    case Qcow2 => Rule("disk_format", true, Blocker, 15)
    case Raw => Rule("disk_format", true, Blocker, 15)
    case _ => Rule("disk_format", false, Warning, 15)
  }

  function RuleGuestAdaptation(vm: Vm): Rule { Rule("guest_adaptation", VirtioNative(vm.hypervisor), Warning, 20) }

  function RuleDriverInjection(vm: Vm): Rule {
    Rule("driver_injection", !(vm.osType.Windows? || (vm.osType.Linux? && vm.hypervisor.Physical?)), Warning, 15)
  }

  function EvaluateAll(vm: Vm): seq<Rule> {
    [RuleOsSupported(vm), RuleCpuMin(vm), RuleMemoryMin(vm), RuleDiskMin(vm), RuleDiskFormat(vm),
     RuleGuestAdaptation(vm), RuleDriverInjection(vm)]
  }

  // ----- Aggregation ---------------------------------------------------------------------

  datatype Grade = Compatible | Partial | Incompatible

  /** `blockers` and `warnings` hold the ids of the failed rules in place of their messages. */
  datatype Verdict = Verdict(grade: Grade, score: nat, blockers: seq<string>, warnings: seq<string>)

  function Cost(r: Rule): nat { if r.passed then 0 else r.weight }

  /** The weights of the failed rules among the first `k`. */
  function Penalty(rules: seq<Rule>, k: nat): nat
    requires k <= |rules|
  {
    if k == 0 then 0 else Penalty(rules, k - 1) + Cost(rules[k - 1])
  }

  /** The failed rules of one severity among the first `k`. */
  function Failed(rules: seq<Rule>, severity: Severity, k: nat): seq<string>
    requires k <= |rules|
  {
    if k == 0 then []
    else
      var r := rules[k - 1];
      Failed(rules, severity, k - 1) + (if !r.passed && r.severity == severity then [r.id] else [])
  }

  function Blockers(rules: seq<Rule>): seq<string> { Failed(rules, Blocker, |rules|) }

  function Warnings(rules: seq<Rule>): seq<string> { Failed(rules, Warning, |rules|) }

  function GradeOf(rules: seq<Rule>): Grade {
    if Blockers(rules) != [] then Incompatible else if Warnings(rules) != [] then Partial else Compatible
  }

  function ScoreOf(rules: seq<Rule>): nat {
    if Penalty(rules, |rules|) > 100 then 0 else 100 - Penalty(rules, |rules|)
  }

  method Aggregate(rules: seq<Rule>) returns (v: Verdict)
    ensures v == Verdict(GradeOf(rules), ScoreOf(rules), Blockers(rules), Warnings(rules))
  {
    var blockers: seq<string>, warnings: seq<string>, penalty := [], [], 0;
    for k := 0 to |rules|
      invariant penalty == Penalty(rules, k)
      invariant blockers == Failed(rules, Blocker, k)
      invariant warnings == Failed(rules, Warning, k)
    {
      var rule := rules[k];
      if !rule.passed {
        penalty := penalty + rule.weight;
        if rule.severity == Blocker {
          blockers := blockers + [rule.id];
        } else if rule.severity == Warning {
          warnings := warnings + [rule.id];
        }
      }
    }
    var score := if penalty > 100 then 0 else 100 - penalty;
    var grade := if blockers != [] then Incompatible else if warnings != [] then Partial else Compatible;
    return Verdict(grade, score, blockers, warnings);
  }

  // ----- Scores and grades ---------------------------------------------------------------

  predicate Blocks(r: Rule) { !r.passed && r.severity == Blocker }

  /** Something is listed exactly if a rule failed with that severity. */
  lemma {:induction false} FailedIffSome(rules: seq<Rule>, severity: Severity, k: nat)
    requires k <= |rules|
    ensures Failed(rules, severity, k) != []
            <==> exists i :: 0 <= i < k && !rules[i].passed && rules[i].severity == severity
  {
    if k == 0 {
    } else {
      FailedIffSome(rules, severity, k - 1);
    }
  }

  /** An id is listed exactly if a rule with that id failed with that severity. */
  lemma {:induction false} ListedExactly(rules: seq<Rule>, severity: Severity, k: nat, id: string)
    requires k <= |rules|
    ensures id in Failed(rules, severity, k)
            <==> exists i :: 0 <= i < k && rules[i].id == id && !rules[i].passed && rules[i].severity == severity
  {
    if k == 0 {
    } else {
      ListedExactly(rules, severity, k - 1, id);
    }
  }

  predicate Warns(r: Rule) { !r.passed && r.severity == Warning }

  /** The grade over any list of rules: one failed blocker decides, then one failed warning; a failed INFO
      rule lowers the score but not the grade. */
  lemma GradeMeaning(rules: seq<Rule>)
    ensures GradeOf(rules) == Incompatible <==> exists i :: 0 <= i < |rules| && Blocks(rules[i])
    ensures GradeOf(rules) == Compatible <==> forall i :: 0 <= i < |rules| ==> rules[i].passed || rules[i].severity == Info
    ensures GradeOf(rules) == Partial <==>
            (forall i :: 0 <= i < |rules| ==> !Blocks(rules[i])) && exists i :: 0 <= i < |rules| && Warns(rules[i])
  {
    FailedIffSome(rules, Blocker, |rules|);
    FailedIffSome(rules, Warning, |rules|);
    assert forall i :: 0 <= i < |rules| ==> rules[i].severity == Blocker || rules[i].severity == Warning || rules[i].severity == Info;
    assert forall i :: 0 <= i < |rules| ==> (Warns(rules[i]) <==> !rules[i].passed && rules[i].severity == Warning);
  }

  lemma PenaltyOfSeven(rs: seq<Rule>)
    requires |rs| == 7
    ensures Penalty(rs, 7) == Cost(rs[0]) + Cost(rs[1]) + Cost(rs[2]) + Cost(rs[3]) + Cost(rs[4]) + Cost(rs[5]) + Cost(rs[6])
  {
    assert Penalty(rs, 1) == Cost(rs[0]);
    assert Penalty(rs, 3) == Penalty(rs, 1) + Cost(rs[1]) + Cost(rs[2]);
    assert Penalty(rs, 5) == Penalty(rs, 3) + Cost(rs[3]) + Cost(rs[4]);
  }

  /** The aggregate of seven rules, written out. */
  lemma SevenRules(rs: seq<Rule>)
    requires |rs| == 7 && forall i :: 0 <= i < 7 ==> rs[i].severity != Info
    ensures Penalty(rs, 7) == Cost(rs[0]) + Cost(rs[1]) + Cost(rs[2]) + Cost(rs[3]) + Cost(rs[4]) + Cost(rs[5]) + Cost(rs[6])
    ensures GradeOf(rs) == Incompatible <==>
            Blocks(rs[0]) || Blocks(rs[1]) || Blocks(rs[2]) || Blocks(rs[3]) || Blocks(rs[4]) || Blocks(rs[5]) || Blocks(rs[6])
    ensures GradeOf(rs) == Compatible <==>
            rs[0].passed && rs[1].passed && rs[2].passed && rs[3].passed && rs[4].passed && rs[5].passed && rs[6].passed
  {
    PenaltyOfSeven(rs);
    GradeMeaning(rs);
  }

  /** What each rule can answer. A doubtful system and a driver injection exclude each other. */
  ghost predicate Answers(rs: seq<Rule>) {
    |rs| == 7 && (forall i :: 0 <= i < 7 ==> rs[i].severity != Info)
    && (if rs[0].severity == Blocker then rs[0].weight == 40 else !rs[0].passed && rs[0].weight == 10 && rs[6].passed)
    && rs[1].severity == Blocker && rs[1].weight == 40
    && (if rs[2].severity == Blocker then rs[2].weight == 40 else !rs[2].passed && rs[2].weight == 10)
    && rs[3].severity == Warning && rs[3].weight == 5
    && (if Blocks(rs[4]) then rs[4].weight == 40 else rs[4].weight == 15)
    && rs[5].severity == Warning && rs[5].weight == 20
    && rs[6].severity == Warning && rs[6].weight == 15
  }

  lemma RulesAnswer(vm: Vm)
    ensures Answers(EvaluateAll(vm))
  {
  }

  lemma ScoreAndGradeOf(rs: seq<Rule>)
    requires Answers(rs)
    ensures GradeOf(rs) == Compatible <==> ScoreOf(rs) == 100
    ensures GradeOf(rs) == Partial ==> 35 <= ScoreOf(rs) <= 95
    ensures GradeOf(rs) == Incompatible ==> ScoreOf(rs) <= 60
    ensures ScoreOf(rs) % 5 == 0
  {
    SevenRules(rs);
  }

  /** For every VM: COMPATIBLE is the score 100; PARTIAL lies between 35 and 95; a blocker costs at
      least 40. */
  lemma ScoreAndGrade(vm: Vm)
    ensures var rs := EvaluateAll(vm);
            (GradeOf(rs) == Compatible <==> ScoreOf(rs) == 100)
            && (GradeOf(rs) == Partial ==> 35 <= ScoreOf(rs) <= 95)
            && (GradeOf(rs) == Incompatible ==> ScoreOf(rs) <= 60)
            && ScoreOf(rs) % 5 == 0
  {
    RulesAnswer(vm);
    ScoreAndGradeOf(EvaluateAll(vm));
  }

  /** A small Windows guest under vSphere. */
  const SMALL_WINDOWS_VM := Vm(Some(1), Some(512), Some(9), Windows, "windows 10", "", Vsphere, None)

  /** A KVM guest whose only flaw is its disk. */
  const SMALL_DISK_VM := Vm(Some(1), Some(1024), Some(9), Linux, "ubuntu", "22.04", Kvm, None)

  /** The lower bound of PARTIAL is attained. */
  lemma LowestPartial()
    ensures GradeOf(EvaluateAll(SMALL_WINDOWS_VM)) == Partial && ScoreOf(EvaluateAll(SMALL_WINDOWS_VM)) == 35
  {
    var vm := SMALL_WINDOWS_VM;
    assert RuleOsSupported(vm).passed by {
      assert WINDOWS_SUPPORTED[3] <= (vm.osName + " " + vm.osVersion)[0..];
    }
    SevenRules(EvaluateAll(vm));
  }

  /** The upper bound of PARTIAL is attained. */
  lemma HighestPartial()
    ensures GradeOf(EvaluateAll(SMALL_DISK_VM)) == Partial && ScoreOf(EvaluateAll(SMALL_DISK_VM)) == 95
  {
    UbuntuIsSupported();
    SevenRules(EvaluateAll(SMALL_DISK_VM));
  }

  lemma UbuntuIsSupported()
    ensures RuleOsSupported(SMALL_DISK_VM) == Rule("os_supported", true, Blocker, 40)
  {
    var vm := SMALL_DISK_VM;
    assert DISTROS[0].0 <= (vm.osName + " " + vm.osVersion)[0..];
    MajorOf22();
  }

  lemma MajorOf22()
    ensures LinuxMajor("ubuntu", "22.04") == Some(22)
  {
    var v := "22.04";
    assert v[1..][1..] == ".04";
    assert DigitRun(".04") == 0 && DigitRun(v[1..]) == 1 && DigitRun(v) == 2;
    assert v[..2] == "22";
    assert "22"[..1] == "2" && "2"[..0] == "";
    assert DigitsValue("2") == 2;
  }

  /** The oldest major version accepted for the system that `text` names. A text with "opensuse" also has
      "suse", which is looked for first. */
  ghost function OldestMajor(text: string): Option<nat> {
    if Contains(text, "ubuntu") then Some(18)
    else if Contains(text, "debian") then Some(10)
    else if Contains(text, "rhel") || Contains(text, "red hat") || Contains(text, "centos") then Some(7)
    else if Contains(text, "rocky") || Contains(text, "alma") then Some(8)
    else if Contains(text, "fedora") then Some(32)
    else if Contains(text, "suse") || Contains(text, "sles") then Some(12)
    else if Contains(text, "oracle") then Some(7)
    else None
  }

  lemma OpensuseHasSuse(text: string)
    requires Contains(text, "opensuse")
    ensures Contains(text, "suse")
  {
    var k :| 0 <= k <= |text| && "opensuse" <= text[k..];
    assert text[k + 4..] == text[k..][4..];
    assert "opensuse"[4..] == "suse" <= text[k..][4..];
  }

  ghost predicate Finds(text: string, k: nat, minimum: Option<nat>)
    requires k <= |DISTROS|
  {
    var found := FindDistro(text, k);
    minimum == (if found.Some? then Some(found.value.1) else None)
  }

  lemma LastDistros(text: string)
    ensures Finds(text, 7, if Contains(text, "fedora") then Some(32)
                           else if Contains(text, "suse") || Contains(text, "sles") then Some(12)
                           else if Contains(text, "oracle") then Some(7)
                           else None)
  {
    if Contains(text, "opensuse") { OpensuseHasSuse(text); }
    assert Finds(text, 12, None);
    assert Finds(text, 11, if Contains(text, "oracle") then Some(7) else None);
    assert Contains(text, "suse") || Finds(text, 10, if Contains(text, "oracle") then Some(7) else None);
  }

  lemma FindDistroMeans(text: string)
    ensures Finds(text, 0, OldestMajor(text))
  {
    LastDistros(text);
    var rest := if FindDistro(text, 7).Some? then Some(FindDistro(text, 7).value.1) else None;
    assert Finds(text, 5, if Contains(text, "rocky") || Contains(text, "alma") then Some(8) else rest);
    assert Finds(text, 3, if Contains(text, "red hat") || Contains(text, "centos") then Some(7)
                          else if Contains(text, "rocky") || Contains(text, "alma") then Some(8) else rest);
  }

  /** The threshold 15 listed for openSUSE is never applied. */
  lemma {:induction false} OpensuseIsSuse(text: string, k: nat)
    requires k <= |DISTROS| && (k > 8 ==> !Contains(text, "suse"))
    ensures FindDistro(text, k) != Some(("opensuse", 15))
    decreases |DISTROS| - k
  {
    if Contains(text, "opensuse") { OpensuseHasSuse(text); }
    if k < |DISTROS| && !Contains(text, DISTROS[k].0) { OpensuseIsSuse(text, k + 1); }
    assert |"opensuse"| == 8 && |"ubuntu"| == 6 && |"debian"| == 6 && |"red hat"| == 7;
  }

  /** `text` holds the digits `d` before any other digit. */
  ghost predicate Leads(text: string, before: string, d: string, after: string) {
    text == before + d + after
    && (forall k :: 0 <= k < |before| ==> !('0' <= before[k] <= '9'))
    && d != "" && (forall k :: 0 <= k < |d| ==> '0' <= d[k] <= '9')
    && (after != "" ==> !('0' <= after[0] <= '9'))
  }

  ghost predicate NoDigit(text: string) { forall k :: 0 <= k < |text| ==> !('0' <= text[k] <= '9') }

  lemma {:induction false} FirstDigitsMeans(text: string, before: string, d: string, after: string)
    requires Leads(text, before, d, after)
    ensures FirstDigits(text) == d
  {
    if before == "" {
      assert text == d + after;
      DigitRunExact(d, after);
    } else {
      assert text[0] == before[0] && text[1..] == before[1..] + d + after;
      FirstDigitsMeans(text[1..], before[1..], d, after);
    }
  }

  lemma {:induction false} NoDigitsAtAll(text: string)
    requires NoDigit(text)
    ensures FirstDigits(text) == ""
  {
    if text != "" { NoDigitsAtAll(text[1..]); }
  }

  /** The major version is the first number in the version; the name counts only if the version has none. */
  lemma MajorMeans(osName: string, osVersion: string, before: string, n: nat, after: string)
    ensures Leads(osVersion, before, Decimal(n), after) ==> LinuxMajor(osName, osVersion) == Some(n)
    ensures NoDigit(osVersion) && Leads(osName, before, Decimal(n), after) ==> LinuxMajor(osName, osVersion) == Some(n)
    ensures NoDigit(osVersion) && NoDigit(osName) ==> LinuxMajor(osName, osVersion) == None
  {
    DecimalValue(n);
    if Leads(osVersion, before, Decimal(n), after) { FirstDigitsMeans(osVersion, before, Decimal(n), after); }
    if Leads(osName, before, Decimal(n), after) { FirstDigitsMeans(osName, before, Decimal(n), after); }
    if NoDigit(osVersion) { NoDigitsAtAll(osVersion); }
    if NoDigit(osName) { NoDigitsAtAll(osName); }
  }

  /** The distribution is recognised and not known to be too old. */
  ghost predicate GoodLinux(vm: Vm) {
    var oldest := OldestMajor(vm.osName + " " + vm.osVersion);
    var major := LinuxMajor(vm.osName, vm.osVersion);
    vm.osType == Linux && oldest.Some? && (major.Some? ==> major.value >= oldest.value)
  }

  ghost predicate GoodWindows(vm: Vm) {
    var text := vm.osName + " " + vm.osVersion;
    vm.osType == Windows
    && (Contains(text, "windows server 2016") || Contains(text, "windows server 2019")
        || Contains(text, "windows server 2022") || Contains(text, "windows 10") || Contains(text, "windows 11"))
  }

  /** The system cannot be told, on a hypervisor that need not report it. */
  ghost predicate DoubtfulOs(vm: Vm) {
    vm.hypervisor in {HyperV, Kvm, Proxmox, Ovirt} && vm.osType != Windows
    && (vm.osType == Linux ==> OldestMajor(vm.osName + " " + vm.osVersion) == None)
  }

  /** KubeVirt takes the disk as it is. */
  ghost predicate NativeDisk(vm: Vm) {
    if vm.diskFormat == None then vm.hypervisor in {Kvm, Proxmox, Ovirt, Physical}
    else vm.diskFormat == Some(Qcow2) || vm.diskFormat == Some(Raw)
  }

  ghost function When(c: bool, n: nat): nat { if c then n else 0 }

  lemma OsCost(vm: Vm)
    ensures Cost(RuleOsSupported(vm)) == if GoodLinux(vm) || GoodWindows(vm) then 0 else if DoubtfulOs(vm) then 10 else 40
    ensures Blocks(RuleOsSupported(vm)) <==> !GoodLinux(vm) && !GoodWindows(vm) && !DoubtfulOs(vm)
    ensures RuleOsSupported(vm).passed <==> GoodLinux(vm) || GoodWindows(vm)
  {
    var text := vm.osName + " " + vm.osVersion;
    FindDistroMeans(text);
    if GoodWindows(vm) {
      assert Contains(text, WINDOWS_SUPPORTED[0]) || Contains(text, WINDOWS_SUPPORTED[1]) || Contains(text, WINDOWS_SUPPORTED[2])
             || Contains(text, WINDOWS_SUPPORTED[3]) || Contains(text, WINDOWS_SUPPORTED[4]);
    }
  }

  lemma FormatCost(vm: Vm)
    ensures Cost(RuleDiskFormat(vm)) == if vm.diskFormat == Some(Iso) then 40 else if NativeDisk(vm) then 0 else 15
    ensures Blocks(RuleDiskFormat(vm)) <==> vm.diskFormat == Some(Iso)
    ensures RuleDiskFormat(vm).passed <==> NativeDisk(vm)
  {
  }

  /** The score of every VM, written out. */
  lemma ScoreExactly(vm: Vm)
    ensures var penalty :=
              (if GoodLinux(vm) || GoodWindows(vm) then 0 else if DoubtfulOs(vm) then 10 else 40)
              + When(Number(vm.cpuCores) < 1, 40)
              + (if Number(vm.memoryMb) < 512 then 40 else if Number(vm.memoryMb) < 1024 then 10 else 0)
              + When(Number(vm.diskGb) < 10, 5)
              + (if vm.diskFormat == Some(Iso) then 40 else if NativeDisk(vm) then 0 else 15)
              + When(vm.hypervisor !in {Kvm, Proxmox, Ovirt}, 20)
              + When(vm.osType == Windows || (vm.osType == Linux && vm.hypervisor == Physical), 15);
            ScoreOf(EvaluateAll(vm)) == if penalty <= 100 then 100 - penalty else 0
  {
    OsCost(vm);
    FormatCost(vm);
    PenaltyOfSeven(EvaluateAll(vm));
  }

  /** Which VMs are INCOMPATIBLE, and which are COMPATIBLE; all others are PARTIAL. */
  lemma GradeExactly(vm: Vm)
    ensures GradeOf(EvaluateAll(vm)) == Incompatible <==>
            Number(vm.cpuCores) < 1 || Number(vm.memoryMb) < 512 || vm.diskFormat == Some(Iso)
            || !(GoodLinux(vm) || GoodWindows(vm) || DoubtfulOs(vm))
    ensures GradeOf(EvaluateAll(vm)) == Compatible <==>
            Number(vm.cpuCores) >= 1 && Number(vm.memoryMb) >= 1024 && Number(vm.diskGb) >= 10
            && NativeDisk(vm) && vm.hypervisor in {Kvm, Proxmox, Ovirt} && GoodLinux(vm)
  {
    OsCost(vm);
    FormatCost(vm);
    SevenRules(EvaluateAll(vm));
  }

  predicate NotWorse(g: Grade, h: Grade) { g.Compatible? || h.Incompatible? || g == h }

  /** Rule by rule, `better` costs no more and blocks no more. */
  ghost predicate NoWorse(better: seq<Rule>, rs: seq<Rule>) {
    |better| == |rs|
    && forall i :: 0 <= i < |rs| ==>
         Cost(better[i]) <= Cost(rs[i]) && (Blocks(better[i]) ==> Blocks(rs[i])) && (rs[i].passed ==> better[i].passed)
         && (rs[i].severity == Info ==> better[i].severity == Info)
  }

  lemma NoWorseGrade(better: seq<Rule>, rs: seq<Rule>)
    requires NoWorse(better, rs)
    ensures NotWorse(GradeOf(better), GradeOf(rs))
  {
    GradeMeaning(better);
    GradeMeaning(rs);
  }

  lemma {:induction false} NoWorsePenalty(better: seq<Rule>, rs: seq<Rule>, k: nat)
    requires NoWorse(better, rs) && k <= |rs|
    ensures Penalty(better, k) <= Penalty(rs, k)
  {
    if k == 0 {
    } else {
      NoWorsePenalty(better, rs, k - 1);
    }
  }

  lemma MoreIsNoWorse(vm: Vm, more: Vm)
    requires Number(vm.cpuCores) <= Number(more.cpuCores)
    requires Number(vm.memoryMb) <= Number(more.memoryMb) && Number(vm.diskGb) <= Number(more.diskGb)
    requires more.(cpuCores := vm.cpuCores, memoryMb := vm.memoryMb, diskGb := vm.diskGb) == vm
    ensures NoWorse(EvaluateAll(more), EvaluateAll(vm))
  {
    assert RuleOsSupported(more) == RuleOsSupported(vm);
    assert RuleDiskFormat(more) == RuleDiskFormat(vm);
  }

  /** More processors, memory or disk never lower the score and never worsen the grade. */
  lemma MoreIsNotWorse(vm: Vm, more: Vm)
    requires Number(vm.cpuCores) <= Number(more.cpuCores)
    requires Number(vm.memoryMb) <= Number(more.memoryMb) && Number(vm.diskGb) <= Number(more.diskGb)
    requires more.(cpuCores := vm.cpuCores, memoryMb := vm.memoryMb, diskGb := vm.diskGb) == vm
    ensures ScoreOf(EvaluateAll(vm)) <= ScoreOf(EvaluateAll(more))
    ensures NotWorse(GradeOf(EvaluateAll(more)), GradeOf(EvaluateAll(vm)))
  {
    MoreIsNoWorse(vm, more);
    NoWorseGrade(EvaluateAll(more), EvaluateAll(vm));
    NoWorsePenalty(EvaluateAll(more), EvaluateAll(vm), 7);
  }

  /** Only Linux guests of a virtio-native source are ever graded COMPATIBLE by the rules. */
  lemma OnlyVirtioLinuxIsCompatible(vm: Vm)
    ensures GradeOf(EvaluateAll(vm)) == Compatible ==> vm.osType == Linux && vm.hypervisor in {Kvm, Proxmox, Ovirt}
  {
    SevenRules(EvaluateAll(vm));
  }

  // ----- The final grade -----------------------------------------------------------------

  /** What the learned model answers: any text, with a confidence. */
  datatype Prediction = Prediction(answer: string, confidence: real)

  function GradeName(g: Grade): string {
    match g case Compatible => "COMPATIBLE" case Partial => "PARTIAL" case Incompatible => "INCOMPATIBLE"
  }

  datatype Decision = Decision(grade: string, byModel: bool, overridden: bool)

  method DecideGrade(model: Option<Prediction>, threshold: real, rules: Verdict) returns (d: Decision)
    ensures d.byModel <==> model.Some? && model.value.confidence >= threshold
                           && (model.value.answer == "INCOMPATIBLE" <==> rules.blockers != [])
    ensures d.byModel ==> d.grade == model.value.answer
    ensures !d.byModel && rules.grade == Compatible ==> d.grade == "COMPATIBLE"
    ensures !d.byModel && rules.grade == Partial ==> d.grade == "PARTIAL"
    ensures !d.byModel && rules.grade == Incompatible ==> d.grade == "INCOMPATIBLE"
    ensures d.overridden <==> model.Some? && model.value.confidence >= threshold && !d.byModel
  {
    var byModel, overridden := false, false;
    if model.Some? && model.value.confidence >= threshold { byModel := true; }
    var grade := GradeName(rules.grade);
    if byModel {
      var rulesHaveBlockers := rules.blockers != [];
      var modelSaysIncompatible := model.value.answer == "INCOMPATIBLE";
      if modelSaysIncompatible != rulesHaveBlockers {
        overridden, byModel := true, false;
      } else {
        grade := model.value.answer;
      }
    }
    return Decision(grade, byModel, overridden);
  }

  datatype Strategy = Direct | Conversion | Hybrid | Cold

  function RecommendStrategy(score: int, hasBlocker: bool): Option<Strategy> {
    if hasBlocker then None
    else if score >= 90 then Some(Direct)
    else if score >= 70 then Some(Conversion)
    else if score >= 50 then Some(Hybrid)
    else Some(Cold)
  }

  /** The analysis of one VM: whatever the model answers, the final grade is INCOMPATIBLE exactly if a
      blocker exists, and exactly then no strategy is recommended. */
  method Analyze(vm: Vm, model: Option<Prediction>, threshold: real)
    returns (verdict: Verdict, decision: Decision, strategy: Option<Strategy>)
    ensures verdict.grade == GradeOf(EvaluateAll(vm)) && verdict.score == ScoreOf(EvaluateAll(vm))
    ensures decision.grade == "INCOMPATIBLE" <==> verdict.blockers != []
    ensures strategy == None <==> verdict.blockers != []
    ensures strategy == Some(Direct) <==> verdict.blockers == [] && 90 <= verdict.score
    ensures strategy == Some(Conversion) <==> verdict.blockers == [] && 70 <= verdict.score < 90
    ensures strategy == Some(Hybrid) <==> verdict.blockers == [] && 50 <= verdict.score < 70
    ensures strategy == Some(Cold) <==> verdict.blockers == [] && verdict.score < 50
    ensures verdict.blockers != [] <==> verdict.grade == Incompatible
    ensures verdict.grade == Compatible ==> strategy == Some(Direct)
    ensures strategy == Some(Cold) ==> verdict.grade == Partial && 35 <= verdict.score < 50
  {
    var rules := EvaluateAll(vm);
    verdict := Aggregate(rules);
    ScoreAndGrade(vm);
    decision := DecideGrade(model, threshold, verdict);
    strategy := RecommendStrategy(verdict.score, verdict.blockers != []);
    GradeNames(verdict.grade);
  }

  lemma GradeNames(g: Grade)
    ensures GradeName(g) == "INCOMPATIBLE" <==> g == Incompatible
  {
    assert |GradeName(Compatible)| == 10 && |GradeName(Partial)| == 7;
  }
}
