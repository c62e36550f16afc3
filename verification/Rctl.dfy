/** The node's rctl rules (`rctl.rs`): what SatL writes, what it reads back,
    and the startup purge of rules whose jail is gone. */
module Rctl {
  import opened TaskStates
  import opened Orders
  import Controller
  import Decimal

  // ---- CPU percentage ------------------------------------------------------

  const I64_MAX: int := 0x7FFF_FFFF_FFFF_FFFF
  const TWO_64: int := 0x1_0000_0000_0000_0000

  /** `nano_cpus_to_pcpu`, with the sum's wrap-around. */
  function NanoCpusToPcpu(nanoCpus: int): int
  {
    if nanoCpus <= 0 then 0
    else
      var sum := nanoCpus + 9_999_999;
      if sum <= I64_MAX then sum / 10_000_000 else -((TWO_64 - sum) / 10_000_000)
  }

  /** `p` percent of a core is the least whole percentage not below the request. */
  ghost predicate LeastPercent(p: int, nanoCpus: int)
  {
    p * 10_000_000 >= nanoCpus && forall q :: q * 10_000_000 >= nanoCpus ==> p <= q
  }

  /** A positive request is rounded up, never to zero, exactly when the sum fits
      in an i64; otherwise the percentage is negative. */
  lemma PercentIsLeast(nanoCpus: int)
    requires 0 < nanoCpus <= I64_MAX
    ensures LeastPercent(NanoCpusToPcpu(nanoCpus), nanoCpus) <==> nanoCpus <= I64_MAX - 9_999_999
    ensures nanoCpus <= I64_MAX - 9_999_999 ==>
              NanoCpusToPcpu(nanoCpus) == Controller.Percent(nanoCpus) && NanoCpusToPcpu(nanoCpus) >= 1
    ensures nanoCpus > I64_MAX - 9_999_999 ==> NanoCpusToPcpu(nanoCpus) < 0
  {
    var p := NanoCpusToPcpu(nanoCpus);
    if nanoCpus <= I64_MAX - 9_999_999 {
      forall q | q * 10_000_000 >= nanoCpus ensures p <= q {
        assert (p - 1) * 10_000_000 < nanoCpus;
      }
    }
  }

  // ---- Rules as text -------------------------------------------------------

  /** `rule_memoryuse`, `rule_pcpu`. */
  function RuleMemoryuse(jail: string, bytes: int): string { "jail:" + jail + ":" + ("memoryuse:sigkill=" + Printed(bytes)) }

  function RulePcpu(jail: string, pcpu: int): string { "jail:" + jail + ":" + ("pcpu:deny=" + Printed(pcpu)) }

  /** An i64 as text. */
  function Printed(n: int): string { if n < 0 then "-" + Decimal.Digits(-n) else Decimal.Digits(n) }

  /** `str::split_once`. */
  function SplitOnce(s: string, c: char): Option<(string, string)>
  {
    if s == "" then None
    else if s[0] == c then Some(("", s[1..]))
    else
      match SplitOnce(s[1..], c)
      case None => None
      case Some(p) => Some(([s[0]] + p.0, p.1))
  }

  /** `jail_subject`. */
  function JailSubject(rule: string): Option<string>
  {
    if !("jail:" <= rule) then None
    else
      match SplitOnce(rule[5..], ':')
      case None => None
      case Some(p) => if p.0 != "" && p.1 != "" then Some(p.0) else None
  }

  lemma {:induction false} SplitOnceAt(name: string, c: char, rest: string)
    requires c !in name
    ensures SplitOnce(name + [c] + rest, c) == Some((name, rest))
    decreases |name|
  {
    var s := name + [c] + rest;
    if name == "" {
      assert s[0] == c && s[1..] == rest;
    } else {
      assert s[0] == name[0] && s[1..] == name[1..] + [c] + rest;
      SplitOnceAt(name[1..], c, rest);
      assert [name[0]] + name[1..] == name;
    }
  }

  lemma {:induction false} SplitOnceIsFirst(s: string, c: char)
    ensures SplitOnce(s, c).None? <==> c !in s
    ensures SplitOnce(s, c).Some? ==>
              var p := SplitOnce(s, c).value; c !in p.0 && s == p.0 + [c] + p.1
    decreases |s|
  {
    if s != "" && s[0] != c {
      SplitOnceIsFirst(s[1..], c);
      assert s == [s[0]] + s[1..];
    }
  }

  /** The subject of a rule, from the shape of the whole line. */
  lemma SubjectOf(rule: string, name: string)
    ensures JailSubject(rule) == Some(name) <==>
              name != "" && ':' !in name && exists rest :: rest != "" && rule == "jail:" + (name + ":" + rest)
  {
    if JailSubject(rule) == Some(name) {
      SplitOnceIsFirst(rule[5..], ':');
      assert rule == "jail:" + rule[5..];
    }
    if name != "" && ':' !in name && exists rest :: rest != "" && rule == "jail:" + (name + ":" + rest) {
      var rest :| rest != "" && rule == "jail:" + (name + ":" + rest);
      SplitOnceAt(name, ':', rest);
      assert rule[5..] == name + ":" + rest;
    }
  }

  /** Every rule SatL writes for a jail is read back as a rule of that jail. */
  lemma OwnRulesAreRecognised(jail: string, n: int)
    requires jail != "" && ':' !in jail
    ensures JailSubject(RuleMemoryuse(jail, n)) == Some(jail)
    ensures JailSubject(RulePcpu(jail, n)) == Some(jail)
  {
    var memory, cpu := "memoryuse:sigkill=" + Printed(n), "pcpu:deny=" + Printed(n);
    Regroup(jail, memory);
    Regroup(jail, cpu);
    SubjectOf(RuleMemoryuse(jail, n), jail);
    SubjectOf(RulePcpu(jail, n), jail);
  }

  lemma Regroup(jail: string, rest: string)
    ensures "jail:" + jail + ":" + rest == "jail:" + (jail + ":" + rest)
  {
  }

  // ---- Rules read back whole -----------------------------------------------

  /** A rule in the syntax of rctl(8): subject, resource, action and amount. */
  datatype Rule = Rule(jail: string, resource: string, action: string, amount: int)

  /** The number of a decimal numeral with an optional minus sign. */
  function ParseInt(s: string): Option<int>
  {
    var digits := if s != "" && s[0] == '-' then s[1..] else s;
    if digits == "" || exists c | c in digits :: !Decimal.IsDigit(c) then None
    else
      var amount: int := Decimal.Value(digits);
      Some(if s[0] == '-' then -amount else amount)
  }

  /** `jail:<name>:<resource>:<action>=<amount>`. */
  function ParseRule(rule: string): Option<Rule>
  {
    if !("jail:" <= rule) then None
    else
      match SplitOnce(rule[5..], ':')
      case None => None
      case Some(p) => ParseLimit(p.0, p.1)
  }

  function ParseLimit(jail: string, limit: string): Option<Rule>
  {
    match SplitOnce(limit, ':')
    case None => None
    case Some(resource) =>
      match SplitOnce(resource.1, '=')
      case None => None
      case Some(action) =>
        match ParseInt(action.1)
        case None => None
        case Some(amount) => Some(Rule(jail, resource.0, action.0, amount))
  }

  lemma PrintedReadsBack(n: int)
    ensures ParseInt(Printed(n)) == Some(n)
  {
    var d := Decimal.Digits(if n < 0 then -n else n);
    Decimal.DigitsRoundTrip(if n < 0 then -n else n);
    assert d[0] in d;
    if n < 0 {
      assert ("-" + d)[1..] == d;
    }
  }

  lemma LimitReadsBack(jail: string, resource: string, action: string, amount: string)
    requires ':' !in resource && '=' !in action && ParseInt(amount).Some?
    ensures ParseLimit(jail, resource + [':'] + (action + ['='] + amount)) ==
              Some(Rule(jail, resource, action, ParseInt(amount).value))
  {
    SplitOnceAt(resource, ':', action + ['='] + amount);
    SplitOnceAt(action, '=', amount);
  }

  lemma RuleReadsBack(jail: string, limit: string)
    requires ':' !in jail
    ensures ParseRule("jail:" + jail + ":" + limit) == ParseLimit(jail, limit)
  {
    Regroup(jail, limit);
    SplitOnceAt(jail, ':', limit);
    assert ("jail:" + (jail + ":" + limit))[5..] == jail + ":" + limit;
  }

  /** Every rule SatL writes for a jail reads back as that limit of that jail: memory
      in use, on which the kernel kills, and a CPU percentage, which it denies. */
  lemma OwnRulesReadBack(jail: string, n: int)
    requires ':' !in jail
    ensures ParseRule(RuleMemoryuse(jail, n)) == Some(Rule(jail, "memoryuse", "sigkill", n))
    ensures ParseRule(RulePcpu(jail, n)) == Some(Rule(jail, "pcpu", "deny", n))
  {
    MemoryLimitReadsBack(jail, n);
    CpuLimitReadsBack(jail, n);
    RuleReadsBack(jail, "memoryuse:sigkill=" + Printed(n));
    RuleReadsBack(jail, "pcpu:deny=" + Printed(n));
  }

  lemma MemoryLimitReadsBack(jail: string, n: int)
    ensures ParseLimit(jail, "memoryuse:sigkill=" + Printed(n)) == Some(Rule(jail, "memoryuse", "sigkill", n))
  {
    PrintedReadsBack(n);
    var amount := Printed(n);
    LimitReadsBack(jail, "memoryuse", "sigkill", amount);
    assert "memoryuse" + [':'] + ("sigkill" + ['='] + amount) == "memoryuse:sigkill=" + amount;
  }

  lemma CpuLimitReadsBack(jail: string, n: int)
    ensures ParseLimit(jail, "pcpu:deny=" + Printed(n)) == Some(Rule(jail, "pcpu", "deny", n))
  {
    PrintedReadsBack(n);
    var amount := Printed(n);
    LimitReadsBack(jail, "pcpu", "deny", amount);
    assert "pcpu" + [':'] + ("deny" + ['='] + amount) == "pcpu:deny=" + amount;
  }

  // ---- The listing ---------------------------------------------------------

  /** `char::is_whitespace`. */
  predicate IsSpace(c: char)
  {
    || '\t' <= c <= '\r' || c == ' ' || c == '\U{85}' || c == '\U{A0}' || c == '\U{1680}'
    || '\U{2000}' <= c <= '\U{200A}' || c == '\U{2028}' || c == '\U{2029}' || c == '\U{202F}'
    || c == '\U{205F}' || c == '\U{3000}'
  }

  function TrimStart(s: string): string
  {
    if s != "" && IsSpace(s[0]) then TrimStart(s[1..]) else s
  }

  function TrimEnd(s: string): string
  {
    if s != "" && IsSpace(s[|s| - 1]) then TrimEnd(s[..|s| - 1]) else s
  }

  function Trim(s: string): string { TrimEnd(TrimStart(s)) }

  /** The stretches between line feeds. */
  function Lines(s: string): (lines: seq<string>)
    ensures lines != []
  {
    if s == "" then [""]
    else
      var rest := Lines(s[1..]);
      if s[0] == '\n' then [""] + rest else [[s[0]] + rest[0]] + rest[1..]
  }

  function NonBlank(lines: seq<string>): seq<string>
  {
    if lines == [] then []
    else
      var t := Trim(lines[0]);
      (if t == "" then [] else [t]) + NonBlank(lines[1..])
  }

  /** `parse_rule_list`: a carriage return before a line feed is trimmed with
      the rest, and an unterminated or empty last line makes no difference. */
  function ParseRuleList(stdout: string): seq<string> { NonBlank(Lines(stdout)) }

  /** What a rule must look like to survive being listed. */
  predicate Listable(rule: string)
  {
    rule != "" && '\n' !in rule && !IsSpace(rule[0]) && !IsSpace(rule[|rule| - 1])
  }

  /** The output of `rctl`: one rule a line. */
  function Listing(rules: seq<string>): string
  {
    if rules == [] then "" else rules[0] + "\n" + Listing(rules[1..])
  }

  lemma {:induction false} FirstLine(line: string, rest: string)
    requires '\n' !in line
    ensures Lines(line + "\n" + rest) == [line] + Lines(rest)
    decreases |line|
  {
    var s := line + "\n" + rest;
    if line == "" {
      assert s[0] == '\n' && s[1..] == rest;
    } else {
      assert s[0] == line[0] && s[1..] == line[1..] + "\n" + rest;
      FirstLine(line[1..], rest);
      assert [line[0]] + line[1..] == line;
    }
  }

  /** Listing and parsing give the rules back, in order. */
  lemma {:induction false} ListingRoundTrip(rules: seq<string>)
    requires forall r | r in rules :: Listable(r)
    ensures ParseRuleList(Listing(rules)) == rules
    decreases |rules|
  {
    if rules == [] {
      assert Lines("")[1..] == [];
      assert Trim("") == "";
    } else {
      assert rules[0] in rules;
      assert forall r | r in rules[1..] :: r in rules;
      ListingRoundTrip(rules[1..]);
      FirstLine(rules[0], Listing(rules[1..]));
      assert ([rules[0]] + Lines(Listing(rules[1..])))[1..] == Lines(Listing(rules[1..]));
      assert rules == [rules[0]] + rules[1..];
    }
  }

  /** Nothing but white space, and no line break. */
  predicate IsPad(s: string) { forall c | c in s :: IsSpace(c) && c != '\n' }

  /** A blank line yields nothing, any other its rule without the white space
      around it: carriage returns, tabs and spaces among it. */
  lemma {:induction false} LineYields(before: string, rule: string, after: string, rest: string)
    requires IsPad(before) && IsPad(after) && (rule == "" || Listable(rule))
    ensures ParseRuleList(before + rule + after + "\n" + rest) == (if rule == "" then [] else [rule]) + ParseRuleList(rest)
  {
    var line := before + rule + after;
    FirstLine(line, rest);
    assert ([line] + Lines(rest))[1..] == Lines(rest);
    TrimmedLine(before, rule, after);
  }

  lemma TrimmedLine(before: string, rule: string, after: string)
    requires IsPad(before) && IsPad(after) && (rule == "" || Listable(rule))
    ensures Trim(before + rule + after) == rule
  {
    assert before + rule + after == before + (rule + after);
    TrimStartPad(before, rule + after);
    if rule == "" {
      assert rule + after == after + "";
      TrimStartPad(after, "");
    } else {
      TrimEndPad(rule, after);
    }
  }

  lemma {:induction false} TrimStartPad(pad: string, s: string)
    requires IsPad(pad)
    ensures TrimStart(pad + s) == TrimStart(s)
    decreases |pad|
  {
    if pad == "" {
      assert pad + s == s;
    } else {
      assert pad[0] in pad && (pad + s)[1..] == pad[1..] + s;
      TrimStartPad(pad[1..], s);
    }
  }

  lemma {:induction false} TrimEndPad(s: string, pad: string)
    requires IsPad(pad) && Listable(s)
    ensures TrimEnd(s + pad) == s
    decreases |pad|
  {
    if pad == "" {
      assert s + pad == s;
    } else {
      var n := |pad| - 1;
      assert pad[n] in pad && (s + pad)[..|s + pad| - 1] == s + pad[..n];
      TrimEndPad(s, pad[..n]);
    }
  }

  /** So line ends of either kind are read. */
  lemma {:induction false} EitherLineEnd(rules: seq<string>)
    requires forall r | r in rules :: Listable(r)
    ensures ParseRuleList(DosListing(rules)) == rules
    decreases |rules|
  {
    if rules == [] {
      ListingRoundTrip([]);
    } else {
      assert rules[0] in rules && forall r | r in rules[1..] :: r in rules;
      EitherLineEnd(rules[1..]);
      LineYields("", rules[0], "\r", DosListing(rules[1..]));
      assert "" + rules[0] + "\r" + "\n" + DosListing(rules[1..]) == rules[0] + "\r\n" + DosListing(rules[1..]);
      assert rules == [rules[0]] + rules[1..];
    }
  }

  function DosListing(rules: seq<string>): string
  {
    if rules == [] then "" else rules[0] + "\r\n" + DosListing(rules[1..])
  }

  // ---- Orphans -------------------------------------------------------------

  const ID_LENGTH := 25

  /** `is_valid_id`: the shape of every SatL id. */
  predicate IsId(s: string)
  {
    |s| == ID_LENGTH && forall c | c in s :: '0' <= c <= '9' || 'a' <= c <= 'z'
  }

  /** A jail that is SatL's by its name, has a rule, and has no prison. */
  ghost predicate IsOrphan(name: string, rules: seq<string>, live: set<string>)
  {
    IsId(name) && name !in live && exists i :: 0 <= i < |rules| && JailSubject(rules[i]) == Some(name)
  }

  /** `orphan_satl_jail_rules`. */
  method OrphanSatlJailRules(rules: seq<string>, live: set<string>) returns (orphans: seq<string>)
    ensures Sorted(orphans) && forall name :: name in orphans <==> IsOrphan(name, rules, live)
  {
    orphans := [];
    for i := 0 to |rules|
      invariant Sorted(orphans) && forall name :: name in orphans <==> IsOrphan(name, rules[..i], live)
    {
      ghost var before := orphans;
      OneMore(rules, i, live);
      var subject := JailSubject(rules[i]);
      if subject.Some? && IsId(subject.value) && subject.value !in live {
        orphans := Insert(orphans, subject.value);
      }
    }
    assert rules[..|rules|] == rules;
  }

  lemma OneMore(rules: seq<string>, i: nat, live: set<string>)
    requires i < |rules|
    ensures forall name :: IsOrphan(name, rules[..i + 1], live) <==>
              IsOrphan(name, rules[..i], live) || (IsId(name) && name !in live && JailSubject(rules[i]) == Some(name))
  {
    var shorter, longer := rules[..i], rules[..i + 1];
    forall name | IsOrphan(name, shorter, live) ensures IsOrphan(name, longer, live) {
      var k :| 0 <= k < |shorter| && JailSubject(shorter[k]) == Some(name);
      assert longer[k] == shorter[k];
    }
    forall name | IsId(name) && name !in live && JailSubject(rules[i]) == Some(name) ensures IsOrphan(name, longer, live) {
      assert longer[i] == rules[i];
    }
    forall name | IsOrphan(name, longer, live)
      ensures IsOrphan(name, shorter, live) || (IsId(name) && name !in live && JailSubject(rules[i]) == Some(name))
    {
      var k :| 0 <= k < |longer| && JailSubject(longer[k]) == Some(name);
      assert k < i ==> shorter[k] == longer[k];
    }
  }

  /** After a purge that nothing refused, no orphan is left; and no rule of a
      live jail, of a jail that is not SatL's, or of no jail at all is lost. */
  lemma PurgeIsExact(rules: seq<string>, live: set<string>, purged: seq<string>)
    requires forall name :: name in purged <==> IsOrphan(name, rules, live)
    ensures forall name :: !IsOrphan(name, Without(rules, Members(purged)), live)
    ensures forall r | r in rules ::
              (JailSubject(r).Some? ==> Foreign(JailSubject(r).value) || JailSubject(r).value in live) ==>
                r in Without(rules, Members(purged))
  {
    WithoutMembers(rules, Members(purged));
    forall name ensures !IsOrphan(name, Without(rules, Members(purged)), live) {
      if IsOrphan(name, Without(rules, Members(purged)), live) {
        OrphansLeft(name, rules, Members(purged), live);
      }
    }
  }

  /** Not the name of a SatL jail: 25 digits and lower-case letters. */
  predicate Foreign(name: string) { |name| != 25 || exists c | c in name :: !('0' <= c <= '9' || 'a' <= c <= 'z') }

  /** What is still an orphan was one, and was not removed. */
  lemma OrphansLeft(name: string, rules: seq<string>, jails: set<string>, live: set<string>)
    requires IsOrphan(name, Without(rules, jails), live)
    ensures IsOrphan(name, rules, live) && name !in jails
  {
    var left := Without(rules, jails);
    WithoutMembers(rules, jails);
    var i :| 0 <= i < |left| && JailSubject(left[i]) == Some(name);
    assert left[i] in left && left[i] in rules;
    var k :| 0 <= k < |rules| && rules[k] == left[i];
  }

  // ---- The node ------------------------------------------------------------

  /** The rules left once those of some jails are removed. */
  function Without(rules: seq<string>, jails: set<string>): seq<string>
  {
    if rules == [] then []
    else
      var gone := JailSubject(rules[0]).Some? && JailSubject(rules[0]).value in jails;
      (if gone then [] else [rules[0]]) + Without(rules[1..], jails)
  }

  lemma {:induction false} WithoutMembers(rules: seq<string>, jails: set<string>)
    ensures forall r :: r in Without(rules, jails) <==>
              r in rules && !(JailSubject(r).Some? && JailSubject(r).value in jails)
    decreases |rules|
  {
    if rules != [] {
      WithoutMembers(rules[1..], jails);
      assert rules == [rules[0]] + rules[1..];
    }
  }

  lemma {:induction false} WithoutTwice(rules: seq<string>, a: set<string>, b: set<string>)
    ensures Without(Without(rules, a), b) == Without(rules, a + b)
    decreases |rules|
  {
    if rules != [] {
      WithoutTwice(rules[1..], a, b);
      var rest := Without(rules[1..], a);
      if JailSubject(rules[0]).Some? && JailSubject(rules[0]).value in a {
        assert Without(rules, a) == rest;
      } else {
        assert Without(rules, a)[1..] == rest;
      }
    }
  }

  lemma {:induction false} WithoutNone(rules: seq<string>)
    ensures Without(rules, {}) == rules
    decreases |rules|
  {
    if rules != [] {
      WithoutNone(rules[1..]);
      assert rules == [rules[0]] + rules[1..];
    }
  }

  datatype LimitsOutcome = NoLimits | Applied(memory: Option<int>, pcpu: Option<int>) | Skipped

  datatype Result<T> = Ok(value: T) | Err

  /** `Rctl` and the kernel's rule table behind it.  Which `rctl` processes
      fail is chosen by the caller. */
  class Node {
    const racct: bool
    var rules: seq<string>

    ghost predicate Valid()
      reads this
    {
      forall r | r in rules :: Listable(r)
    }

    constructor (racct: bool)
      ensures Valid() && this.racct == racct && rules == []
    {
      this.racct := racct;
      rules := [];
    }

    /** `apply_limits`: with a limit <= 0 or racct off nothing is added; the CPU
        rule is not tried once the memory rule has failed. */
    method ApplyLimits(jail: string, memory: Option<int>, nanoCpus: Option<int>, memoryOk: bool, cpuOk: bool)
      returns (r: Result<LimitsOutcome>)
      requires Valid() && IsId(jail)
      modifies this
      ensures Valid()
      ensures var wantMemory, wantCpu := memory.Some? && memory.value > 0, nanoCpus.Some? && nanoCpus.value > 0;
              && (r.Err? <==> racct && ((wantMemory && !memoryOk) || (wantCpu && !cpuOk)))
              && (r.Ok? ==>
                    r.value == if !wantMemory && !wantCpu then NoLimits
                               else if !racct then Skipped
                               else Applied(if wantMemory then memory else None,
                                            if wantCpu then Some(NanoCpusToPcpu(nanoCpus.value)) else None))
              && rules == old(rules)
                   + (if racct && wantMemory && memoryOk then [RuleMemoryuse(jail, memory.value)] else [])
                   + (if racct && wantCpu && cpuOk && (wantMemory ==> memoryOk)
                      then [RulePcpu(jail, NanoCpusToPcpu(nanoCpus.value))] else [])
    {
      var wantMemory := memory.Some? && memory.value > 0;
      var wantCpu := nanoCpus.Some? && nanoCpus.value > 0;
      if !wantMemory && !wantCpu {
        return Ok(NoLimits);
      }
      if !racct {
        return Ok(Skipped);
      }
      if wantMemory {
        if !memoryOk {
          return Err;
        }
        RuleListable(jail, memory.value);
        rules := rules + [RuleMemoryuse(jail, memory.value)];
      }
      if wantCpu {
        if !cpuOk {
          return Err;
        }
        RuleListable(jail, NanoCpusToPcpu(nanoCpus.value));
        rules := rules + [RulePcpu(jail, NanoCpusToPcpu(nanoCpus.value))];
      }
      r := Ok(Applied(if wantMemory then memory else None, if wantCpu then Some(NanoCpusToPcpu(nanoCpus.value)) else None));
    }

    /** `remove_limits`: no rule to remove is a success too. */
    method RemoveLimits(jail: string, ok: bool) returns (r: Result<()>)
      requires Valid()
      modifies this
      ensures Valid() && (r.Ok? <==> ok || !racct)
      ensures rules == if racct && ok then Without(old(rules), {jail}) else old(rules)
    {
      if !racct {
        return Ok(());
      }
      if !ok {
        return Err;
      }
      WithoutMembers(rules, {jail});
      rules := Without(rules, {jail});
      r := Ok(());
    }

    /** `purge_orphan_rules`: `refused` are the jails whose removal fails, `lists`
        whether the rules can be listed at all.  Exactly the rules of the orphans
        that were not refused go; all others, in their order, stay. */
    method PurgeOrphanRules(live: set<string>, refused: set<string>, lists: bool) returns (r: Result<seq<string>>)
      requires Valid()
      modifies this
      ensures Valid() && (r.Err? <==> racct && !lists) && (r.Err? ==> rules == old(rules))
      ensures r.Ok? ==>
                && Sorted(r.value)
                && (forall name :: name in r.value <==> racct && IsOrphan(name, old(rules), live) && name !in refused)
                && rules == Without(old(rules), Members(r.value))
    {
      var listed := ListRules(lists);
      if listed.Err? {
        return Err;
      }
      var orphans := OrphanSatlJailRules(listed.value, live);
      var purged := RemoveAll(orphans, refused);
      KeptSorted(orphans, refused);
      if !racct {
        WithoutNone(rules);
        assert Members(purged) == {};
      }
      r := Ok(purged);
    }

    /** `list_rules`, parsing what `rctl` prints. */
    method ListRules(lists: bool) returns (r: Result<seq<string>>)
      requires Valid()
      ensures r == if !racct then Ok([]) else if lists then Ok(rules) else Err
    {
      if !racct {
        return Ok([]);
      }
      if !lists {
        return Err;
      }
      ListingRoundTrip(rules);
      r := Ok(ParseRuleList(Listing(rules)));
    }

    method RemoveAll(names: seq<string>, refused: set<string>) returns (purged: seq<string>)
      requires Valid()
      modifies this
      ensures Valid() && (racct ==> purged == Kept(names, refused)) && (!racct ==> purged == names)
      ensures rules == if racct then Without(old(rules), Members(purged)) else old(rules)
    {
      purged := [];
      WithoutNone(rules);
      assert Members([]) == {};
      for i := 0 to |names|
        modifies this
        invariant Valid() && purged == if racct then Kept(names[..i], refused) else names[..i]
        invariant rules == if racct then Without(old(rules), Members(purged)) else old(rules)
      {
        assert names[..i + 1][..i] == names[..i];
        DropOne(old(rules), purged, names[i]);
        var r := RemoveLimits(names[i], names[i] !in refused);
        if r.Ok? {
          purged := purged + [names[i]];
        }
      }
      assert names[..|names|] == names;
    }
  }

  lemma DropOne(rules: seq<string>, purged: seq<string>, name: string)
    ensures Without(Without(rules, Members(purged)), {name}) == Without(rules, Members(purged + [name]))
  {
    WithoutTwice(rules, Members(purged), {name});
    assert Members(purged + [name]) == Members(purged) + {name};
  }

  function Members(s: seq<string>): set<string> { set n | n in s }

  function Kept(names: seq<string>, refused: set<string>): seq<string>
  {
    if names == [] then []
    else
      var last := names[|names| - 1];
      Kept(names[..|names| - 1], refused) + if last in refused then [] else [last]
  }

  lemma {:induction false} KeptSorted(names: seq<string>, refused: set<string>)
    requires Sorted(names)
    ensures Sorted(Kept(names, refused)) && forall n :: n in Kept(names, refused) <==> n in names && n !in refused
    decreases |names|
  {
    if names != [] {
      var prior, last := names[..|names| - 1], names[|names| - 1];
      KeptSorted(prior, refused);
      assert names == prior + [last];
      var kept := Kept(prior, refused);
      forall i | 0 <= i < |kept| ensures Less(kept[i], last) {
        assert kept[i] in kept;
        var k :| 0 <= k < |prior| && prior[k] == kept[i];
      }
    }
  }

  lemma RuleListable(jail: string, n: int)
    requires IsId(jail)
    ensures Listable(RuleMemoryuse(jail, n)) && Listable(RulePcpu(jail, n))
  {
    PrintedEnds(n);
    EndsListable(jail, "memoryuse:sigkill=", Printed(n));
    EndsListable(jail, "pcpu:deny=", Printed(n));
  }

  lemma PrintedEnds(n: int)
    ensures var p := Printed(n); p != "" && '\n' !in p && !IsSpace(p[|p| - 1])
  {
    var d := Decimal.Digits(if n < 0 then -n else n);
    assert d[|d| - 1] in d;
  }

  lemma EndsListable(jail: string, middle: string, last: string)
    requires IsId(jail) && '\n' !in middle && last != "" && '\n' !in last && !IsSpace(last[|last| - 1])
    ensures Listable("jail:" + jail + ":" + (middle + last))
  {
    var rule := "jail:" + jail + ":" + (middle + last);
    assert rule[|rule| - 1] == last[|last| - 1];
  }
}
