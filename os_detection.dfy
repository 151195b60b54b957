/** The operating-system classifier: a TTL ceiling table, per-OS signature
    ports and per-OS banner patterns, combined with fixed weights
    (40 flat per TTL candidate, 0.3 x port score, 0.3 x banner score). */
module OsDetection {
  import opened Common

  /** The placeholder name used when nothing is known. */
  const Unknown: string := "Desconhecido"

  // =====================================================================
  // Ordered score dictionaries (a Python dict keeps insertion order)

  datatype Score = Score(os: string, value: real)

  type Scores = seq<Score>

  function Names(d: Scores): (r: seq<string>)
    ensures |r| == |d| && forall i :: 0 <= i < |d| ==> r[i] == d[i].os
  {
    seq(|d|, i requires 0 <= i < |d| => d[i].os)
  }

  /** d.get(os, 0) */
  function Lookup(d: Scores, os: string): real
  {
    if d == [] then 0.0 else if d[0].os == os then d[0].value else Lookup(d[1..], os)
  }

  /** d[os] = d.get(os, 0) + delta: an existing key keeps its place, a new
      key goes to the end. */
  function Add(d: Scores, os: string, delta: real): Scores
  {
    if d == [] then [Score(os, delta)]
    else if d[0].os == os then [Score(os, d[0].value + delta)] + d[1..]
    else [d[0]] + Add(d[1..], os, delta)
  }

  /** a followed by the elements of b that are new, in b's order. */
  function AppendNew(a: seq<string>, b: seq<string>): seq<string>
  {
    if b == [] then a
    else
      var r := AppendNew(a, b[..|b| - 1]);
      if b[|b| - 1] in r then r else r + [b[|b| - 1]]
  }

  /** Adding under an existing key keeps the key list; a new key is
      appended. */
  lemma {:induction false} AddNamesOrder(d: Scores, os: string, delta: real)
    ensures Names(Add(d, os, delta)) == if os in Names(d) then Names(d) else Names(d) + [os]
    decreases |d|
  {
    if d == [] {
      assert Names(Add(d, os, delta)) == [os];
    } else if d[0].os == os {
      assert Names(Add(d, os, delta)) == Names(d);
    } else {
      AddNamesOrder(d[1..], os, delta);
      AddNamesOrderStep(d, os, delta);
    }
  }

  /** The step of AddNamesOrder past a head with another key. */
  lemma AddNamesOrderStep(d: Scores, os: string, delta: real)
    requires d != [] && d[0].os != os
    requires Names(Add(d[1..], os, delta)) == if os in Names(d[1..]) then Names(d[1..]) else Names(d[1..]) + [os]
    ensures Names(Add(d, os, delta)) == if os in Names(d) then Names(d) else Names(d) + [os]
  {
    var nt := Names(d[1..]);
    NamesCons(d);
    NamesCons(Add(d, os, delta));
    if os !in nt {
      AppendAssoc([d[0].os], nt, [os]);
    }
  }

  lemma NamesCons(d: Scores)
    requires d != []
    ensures Names(d) == [d[0].os] + Names(d[1..])
  {
  }

  lemma AddNames(d: Scores, os: string, delta: real)
    requires Distinct(Names(d))
    ensures Distinct(Names(Add(d, os, delta)))
    ensures Names(Add(d, os, delta)) == if os in Names(d) then Names(d) else Names(d) + [os]
  {
    AddNamesOrder(d, os, delta);
    if os !in Names(d) {
      DistinctAppend(Names(d), os);
    }
  }

  lemma DistinctAppend(s: seq<string>, x: string)
    requires Distinct(s) && x !in s
    ensures Distinct(s + [x])
  {
  }

  /** Adding delta under os changes the value read back for os by delta and
      no other value. */
  lemma {:induction false} AddLookup(d: Scores, os: string, delta: real, k: string)
    ensures Lookup(Add(d, os, delta), k) == Lookup(d, k) + (if k == os then delta else 0.0)
    decreases |d|
  {
    if d != [] && d[0].os != os {
      AddLookup(d[1..], os, delta, k);
    }
  }

  // =====================================================================
  // TTL signal

  datatype TtlSignature = TtlSignature(base: nat, oses: seq<string>)

  /** The ceiling table, in ascending order of base. */
  const TtlSignatures: seq<TtlSignature> := [
    TtlSignature(64, ["Linux", "Unix", "macOS", "iOS"]),
    TtlSignature(128, ["Windows"]),
    TtlSignature(254, ["Solaris", "AIX"]),
    TtlSignature(255, ["FreeBSD", "Network Equipment"])
  ]

  /** max(ttl_signatures.keys()) */
  const MaxBase: nat := 255

  /** The first base, from index i on, that is at least ttl; MaxBase when
      there is none. */
  function BaseFrom(ttl: nat, i: nat): nat
    requires i <= |TtlSignatures|
    decreases |TtlSignatures| - i
  {
    if i == |TtlSignatures| then MaxBase
    else if ttl <= TtlSignatures[i].base then TtlSignatures[i].base
    else BaseFrom(ttl, i + 1)
  }

  function BaseTtl(ttl: nat): nat { BaseFrom(ttl, 0) }

  /** ttl_signatures.get(base, ["Desconhecido"]) */
  function CandidatesFor(base: nat): seq<string>
  {
    if base == 64 then TtlSignatures[0].oses
    else if base == 128 then TtlSignatures[1].oses
    else if base == 254 then TtlSignatures[2].oses
    else if base == 255 then TtlSignatures[3].oses
    else [Unknown]
  }

  /** The candidate list detect_os_by_ttl returns for an observed TTL. */
  function TtlCandidates(ttl: Option<nat>): seq<string>
  {
    match ttl
    case None => [Unknown]
    case Some(t) => CandidatesFor(BaseTtl(t))
  }

  lemma {:induction false} BaseFromFacts(ttl: nat, i: nat)
    requires i <= |TtlSignatures|
    ensures var b := BaseFrom(ttl, i);
      && (b == MaxBase || exists k :: i <= k < |TtlSignatures| && b == TtlSignatures[k].base && ttl <= b)
      && forall k :: i <= k < |TtlSignatures| && ttl <= TtlSignatures[k].base ==> b <= TtlSignatures[k].base
    decreases |TtlSignatures| - i
  {
    if i < |TtlSignatures| && TtlSignatures[i].base < ttl {
      BaseFromFacts(ttl, i + 1);
    }
  }

  /** The chosen base is the smallest ceiling of {64,128,254,255} that is at
      least ttl, or 255 when ttl exceeds every ceiling; the candidates are
      exactly that ceiling's list. */
  lemma BaseTtlIsSmallestCeiling(ttl: nat)
    ensures BaseTtl(ttl) in {64, 128, 254, 255}
    ensures ttl <= 255 ==> ttl <= BaseTtl(ttl)
    ensures ttl > 255 ==> BaseTtl(ttl) == 255
    ensures forall k :: 0 <= k < |TtlSignatures| && ttl <= TtlSignatures[k].base ==> BaseTtl(ttl) <= TtlSignatures[k].base
    ensures exists k :: 0 <= k < |TtlSignatures| && TtlSignatures[k].base == BaseTtl(ttl)
                        && TtlCandidates(Some(ttl)) == TtlSignatures[k].oses
  {
    BaseFromFacts(ttl, 0);
    var b := BaseTtl(ttl);
    if ttl <= 255 {
      assert ttl <= TtlSignatures[3].base;
    }
  }

  lemma TtlCandidatesUnresolved()
    ensures TtlCandidates(None) == [Unknown]
  {
  }

  /** detect_os_by_ttl: a walk over the sorted bases that stops at the first
      base at least ttl. */
  method DetectOsByTtl(pingOutput: Option<string>) returns (ttl: Option<nat>, candidates: seq<string>)
    ensures ttl == GetTtl(pingOutput)
    ensures ttl.None? ==> candidates == [Unknown]
    ensures ttl.Some? ==> candidates == CandidatesFor(BaseTtl(ttl.value))
  {
    ttl := GetTtl(pingOutput);
    if ttl.None? {
      return ttl, [Unknown];
    }
    var t := ttl.value;
    var base: Option<nat> := None;
    var i := 0;
    while i < |TtlSignatures|
      invariant 0 <= i <= |TtlSignatures|
      invariant base.None? ==> BaseFrom(t, i) == BaseTtl(t)
      invariant base.Some? ==> base.value == BaseTtl(t)
      decreases |TtlSignatures| - i
    {
      if t <= TtlSignatures[i].base {
        base := Some(TtlSignatures[i].base);
        break;
      }
      i := i + 1;
    }
    if base.None? {
      base := Some(MaxBase);
    }
    candidates := CandidatesFor(base.value);
  }

  // =====================================================================
  // TTL extraction from ping output: the first case-insensitive "ttl="
  // followed by one or more digits.

  predicate TtlTagAt(s: string, i: nat)
  {
    && i + 5 <= |s|
    && (s[i] == 't' || s[i] == 'T')
    && (s[i + 1] == 't' || s[i + 1] == 'T')
    && (s[i + 2] == 'l' || s[i + 2] == 'L')
    && s[i + 3] == '='
    && IsDigit(s[i + 4])
  }

  function ParseTtlFrom(s: string, i: nat): Option<nat>
    decreases |s| - i
  {
    if i + 5 > |s| then None
    else if TtlTagAt(s, i) then Some(DigitsValue(DigitRun(s[i + 4..])))
    else ParseTtlFrom(s, i + 1)
  }

  function ParseTtl(s: string): Option<nat> { ParseTtlFrom(s, 0) }

  /** _get_ttl: None when the ping command failed, otherwise the parse of
      its output. */
  function GetTtl(pingOutput: Option<string>): Option<nat>
  {
    match pingOutput
    case None => None
    case Some(out) => ParseTtl(out)
  }

  lemma {:induction false} ParseTtlFromFirst(s: string, i: nat, k: nat)
    requires i <= k && TtlTagAt(s, k)
    requires forall j :: i <= j < k ==> !TtlTagAt(s, j)
    ensures ParseTtlFrom(s, i) == Some(DigitsValue(DigitRun(s[k + 4..])))
    decreases k - i
  {
    if i < k {
      ParseTtlFromFirst(s, i + 1, k);
    }
  }

  lemma {:induction false} ParseTtlFromNone(s: string, i: nat)
    ensures ParseTtlFrom(s, i).None? <==> forall j :: i <= j ==> !TtlTagAt(s, j)
    decreases |s| - i
  {
    if i + 5 <= |s| && !TtlTagAt(s, i) {
      ParseTtlFromNone(s, i + 1);
    }
  }

  /** The parse is None exactly when there is no tag; otherwise it reads
      the whole digit run after the first tag. */
  lemma ParseTtlSpec(s: string)
    ensures ParseTtl(s).None? <==> forall j :: 0 <= j ==> !TtlTagAt(s, j)
    ensures forall k: nat :: TtlTagAt(s, k) && (forall j: nat :: j < k ==> !TtlTagAt(s, j)) ==>
              ParseTtl(s) == Some(DigitsValue(DigitRun(s[k + 4..])))
  {
    ParseTtlFromNone(s, 0);
    forall k: nat | TtlTagAt(s, k) && (forall j: nat :: j < k ==> !TtlTagAt(s, j))
      ensures ParseTtl(s) == Some(DigitsValue(DigitRun(s[k + 4..])))
    {
      ParseTtlFromFirst(s, 0, k);
    }
  }

  /** Reading the TTL back from "... ttl=<n> ..." gives n. */
  lemma ParseTtlRoundTrip(prefix: string, n: nat, rest: string)
    requires forall j :: 0 <= j ==> !TtlTagAt(prefix, j)
    requires rest == [] || !IsDigit(rest[0])
    ensures ParseTtl(prefix + "ttl=" + NatToString(n) + rest) == Some(n)
  {
    var digits := NatToString(n);
    NatToStringDigits(n);
    var s := prefix + "ttl=" + digits + rest;
    var k := |prefix|;
    assert s[k..k + 4] == "ttl=";
    assert s[k + 4] == digits[0];
    assert TtlTagAt(s, k);
    forall j | 0 <= j < k ensures !TtlTagAt(s, j) {
      if j + 5 <= k {
        assert s[j..j + 5] == prefix[j..j + 5];
        assert !TtlTagAt(prefix, j);
      } else {
        assert s[k] == 't' && s[k + 1] == 't' && s[k + 2] == 'l' && s[k + 3] == '=';
      }
    }
    ParseTtlFromFirst(s, 0, k);
    var tag := prefix + "ttl=";
    AppendAssoc(tag, digits, rest);
    AppendDrop(tag, digits + rest);
    assert s[k + 4..] == digits + rest;
    DigitRunOfDigits(digits, rest);
    DigitsValueOfNatToString(n);
  }

  // =====================================================================
  // Port-set signal

  datatype PortSignature = PortSignature(os: string, ports: seq<int>)

  const PortSignatures: seq<PortSignature> := [
    PortSignature("Windows", [135, 139, 445, 3389]),
    PortSignature("Linux", [22, 111, 2049]),
    PortSignature("macOS", [22, 548, 5009, 7000]),
    PortSignature("FreeBSD", [22, 80]),
    PortSignature("Network Equipment", [22, 23, 80, 443])
  ]

  /** The table names five different systems, each with at least one port. */
  lemma PortSignaturesFacts()
    ensures SigNames(PortSignatures) == ["Windows", "Linux", "macOS", "FreeBSD", "Network Equipment"]
    ensures Distinct(SigNames(PortSignatures))
    ensures forall i :: 0 <= i < |PortSignatures| ==> |PortSignatures[i].ports| > 0
  {
  }

  /** sum(1 for port in signature if port in open_ports) */
  function CountOpen(signature: seq<int>, open: seq<int>): (n: nat)
    ensures n <= |signature|
    ensures n > 0 <==> exists p :: p in signature && p in open
  {
    if signature == [] then 0
    else
      var last := signature[|signature| - 1];
      assert forall p :: p in signature <==> p in signature[..|signature| - 1] || p == last;
      CountOpen(signature[..|signature| - 1], open) + (if last in open then 1 else 0)
  }

  function Percent(matches: nat, total: nat): real
    requires 0 < total
  {
    (matches as real / total as real) * 100.0
  }

  lemma PercentBounds(matches: nat, total: nat)
    requires 0 < matches <= total
    ensures 0.0 < Percent(matches, total) <= 100.0
  {
    var q := matches as real / total as real;
    assert q * total as real == matches as real;
    assert q <= 1.0;
  }

  /** The port-score loop over the first |sigs| signatures. */
  function PortScoresOver(sigs: seq<PortSignature>, open: seq<int>): Scores
  {
    if sigs == [] then []
    else
      var prev := PortScoresOver(sigs[..|sigs| - 1], open);
      var sig := sigs[|sigs| - 1];
      var m := CountOpen(sig.ports, open);
      if m > 0 && |sig.ports| > 0 then prev + [Score(sig.os, Percent(m, |sig.ports|))] else prev
  }

  /** detect_os_by_ports */
  function PortScores(open: seq<int>): Scores
  {
    if open == [] then [] else PortScoresOver(PortSignatures, open)
  }

  function SigNames(sigs: seq<PortSignature>): (r: seq<string>)
    ensures |r| == |sigs| && forall i :: 0 <= i < |sigs| ==> r[i] == sigs[i].os
  {
    if sigs == [] then [] else SigNames(sigs[..|sigs| - 1]) + [sigs[|sigs| - 1].os]
  }

  /** Every entry names a signature OS, matched at least once, with a score
      in (0, 100]; no OS appears twice when the table names are distinct. */
  lemma {:induction false} PortScoresOverEntries(sigs: seq<PortSignature>, open: seq<int>)
    requires forall i :: 0 <= i < |sigs| ==> |sigs[i].ports| > 0
    ensures forall e :: e in PortScoresOver(sigs, open) ==> 0.0 < e.value <= 100.0 && e.os in SigNames(sigs)
    ensures Distinct(SigNames(sigs)) ==> Distinct(Names(PortScoresOver(sigs, open)))
    decreases |sigs|
  {
    if sigs != [] {
      var init := sigs[..|sigs| - 1];
      PortScoresOverEntries(init, open);
      var prev := PortScoresOver(init, open);
      var sig := sigs[|sigs| - 1];
      var m := CountOpen(sig.ports, open);
      assert SigNames(sigs) == SigNames(init) + [sig.os];
      if m > 0 {
        PercentBounds(m, |sig.ports|);
        var e := Score(sig.os, Percent(m, |sig.ports|));
        assert Names(prev + [e]) == Names(prev) + [sig.os];
        if Distinct(SigNames(sigs)) {
          assert Distinct(SigNames(init)) by {
            assert forall i :: 0 <= i < |init| ==> SigNames(init)[i] == SigNames(sigs)[i];
          }
          assert sig.os !in SigNames(init);
          assert sig.os !in Names(prev);
        }
      }
    }
  }

  /** Signature i is scored exactly when one of its ports is open, and its
      score is 100 * matches / |signature| (0 when absent). */
  lemma {:induction false} PortScoreAt(sigs: seq<PortSignature>, open: seq<int>, i: nat)
    requires i < |sigs| && Distinct(SigNames(sigs))
    requires forall j :: 0 <= j < |sigs| ==> |sigs[j].ports| > 0
    ensures sigs[i].os in Names(PortScoresOver(sigs, open)) <==> CountOpen(sigs[i].ports, open) > 0
    ensures Lookup(PortScoresOver(sigs, open), sigs[i].os) == Percent(CountOpen(sigs[i].ports, open), |sigs[i].ports|)
    decreases |sigs|
  {
    var init := sigs[..|sigs| - 1];
    var prev := PortScoresOver(init, open);
    var sig := sigs[|sigs| - 1];
    var m := CountOpen(sig.ports, open);
    PortScoresOverLast(sigs, open);
    if i < |sigs| - 1 {
      PortScoreAt(init, open, i);
    } else {
      LookupAbsent(prev, sig.os);
    }
    if m > 0 {
      var e := Score(sig.os, Percent(m, |sig.ports|));
      LookupAppendNew(prev, e, sigs[i].os);
      assert Names(prev + [e]) == Names(prev) + [sig.os];
    }
  }

  /** The last signature's OS is new to the scores of the ones before it,
      whose names stay distinct. */
  lemma PortScoresOverLast(sigs: seq<PortSignature>, open: seq<int>)
    requires sigs != [] && Distinct(SigNames(sigs))
    requires forall j :: 0 <= j < |sigs| ==> |sigs[j].ports| > 0
    ensures Distinct(SigNames(sigs[..|sigs| - 1]))
    ensures forall j :: 0 <= j < |sigs| - 1 ==> sigs[j].os != sigs[|sigs| - 1].os
    ensures sigs[|sigs| - 1].os !in Names(PortScoresOver(sigs[..|sigs| - 1], open))
  {
    var init := sigs[..|sigs| - 1];
    assert forall j :: 0 <= j < |init| ==> SigNames(init)[j] == SigNames(sigs)[j];
    assert forall j :: 0 <= j < |sigs| - 1 ==> SigNames(sigs)[j] != SigNames(sigs)[|sigs| - 1];
    PortScoresOverEntries(init, open);
  }

  lemma {:induction false} LookupAppendNew(d: Scores, e: Score, k: string)
    requires e.os !in Names(d)
    ensures Lookup(d + [e], k) == if k == e.os then e.value else Lookup(d, k)
    decreases |d|
  {
    if d != [] {
      assert (d + [e])[1..] == d[1..] + [e];
      assert Names(d) == [d[0].os] + Names(d[1..]);
      LookupAppendNew(d[1..], e, k);
    }
  }

  lemma {:induction false} LookupAbsent(d: Scores, k: string)
    ensures k !in Names(d) ==> Lookup(d, k) == 0.0
    decreases |d|
  {
    if d != [] {
      assert Names(d) == [d[0].os] + Names(d[1..]);
      LookupAbsent(d[1..], k);
    }
  }

  /** Port scoring: no ports give no scores; an OS is scored exactly when
      one of its signature ports is open, with 100 * matches / |signature|,
      which lies in (0, 100]. */
  lemma PortScoresSpec(open: seq<int>)
    ensures open == [] ==> PortScores(open) == []
    ensures Distinct(Names(PortScores(open)))
    ensures forall e :: e in PortScores(open) ==> 0.0 < e.value <= 100.0
    ensures forall i :: 0 <= i < |PortSignatures| && open != [] ==>
              (PortSignatures[i].os in Names(PortScores(open)) <==>
               exists p :: p in PortSignatures[i].ports && p in open)
    ensures forall i :: 0 <= i < |PortSignatures| && open != [] ==>
              Lookup(PortScores(open), PortSignatures[i].os)
              == Percent(CountOpen(PortSignatures[i].ports, open), |PortSignatures[i].ports|)
  {
    if open != [] {
      var sigs := PortSignatures;
      PortSignaturesFacts();
      PortScoresOverEntries(sigs, open);
      forall i | 0 <= i < |sigs|
        ensures (sigs[i].os in Names(PortScores(open)) <==> exists p :: p in sigs[i].ports && p in open)
        ensures Lookup(PortScores(open), sigs[i].os) == Percent(CountOpen(sigs[i].ports, open), |sigs[i].ports|)
      {
        PortScoreAt(sigs, open, i);
      }
    }
  }

  /** detect_os_by_ports: the loop over the signature table. */
  method DetectOsByPorts(open: seq<int>) returns (scores: Scores)
    ensures scores == PortScores(open)
  {
    if open == [] {
      return [];
    }
    scores := [];
    var sigs := PortSignatures;
    var i := 0;
    while i < |sigs|
      invariant 0 <= i <= |sigs|
      invariant scores == PortScoresOver(sigs[..i], open)
    {
      var sig := sigs[i];
      var matches := CountOpen(sig.ports, open);
      PortScoresOverStep(sigs, i, open);
      if matches > 0 {
        scores := scores + [Score(sig.os, Percent(matches, |sig.ports|))];
      }
      i := i + 1;
    }
    assert sigs[..i] == sigs;
  }

  /** One more signature extends the port scores by its own entry, if any. */
  lemma PortScoresOverStep(sigs: seq<PortSignature>, i: nat, open: seq<int>)
    requires i < |sigs|
    ensures var m := CountOpen(sigs[i].ports, open);
      PortScoresOver(sigs[..i + 1], open)
      == PortScoresOver(sigs[..i], open) + (if m > 0 then [Score(sigs[i].os, Percent(m, |sigs[i].ports|))] else [])
  {
    assert sigs[..i + 1][..i] == sigs[..i];
  }

  // =====================================================================
  // Banner signal

  /** The ports worth a banner read, in priority-list form. */
  const BannerPorts: seq<int> := [21, 22, 23, 25, 80, 110, 143, 443, 8080]

  /** At most this many ports are probed for banners. */
  const MaxBannerProbes: nat := 5

  /** The OS order of the banner-pattern table. */
  const BannerOses: seq<string> := ["Windows", "Linux", "macOS", "FreeBSD", "Network Equipment"]

  function KeepBannerPorts(open: seq<int>): (r: seq<int>)
  {
    if open == [] then []
    else
      var prev := KeepBannerPorts(open[..|open| - 1]);
      if open[|open| - 1] in BannerPorts then prev + [open[|open| - 1]] else prev
  }

  /** [p for p in open if p in BannerPorts][:5] */
  function BannerProbes(open: seq<int>): seq<int>
  {
    var kept := KeepBannerPorts(open);
    if |kept| <= MaxBannerProbes then kept else kept[..MaxBannerProbes]
  }

  /** f lists, in increasing order, positions of s holding the elements of
      sub: sub is a subsequence of s. */
  predicate Embeds(f: seq<nat>, sub: seq<int>, s: seq<int>)
  {
    && |f| == |sub|
    && (forall i :: 0 <= i < |f| ==> f[i] < |s| && s[f[i]] == sub[i])
    && (forall i, j :: 0 <= i < j < |f| ==> f[i] < f[j])
  }

  /** An embedding survives appending to s, and extends by the new last
      position when the same element is appended to sub. */
  lemma EmbedsAppend(f: seq<nat>, sub: seq<int>, s: seq<int>, x: int)
    requires Embeds(f, sub, s)
    ensures Embeds(f, sub, s + [x])
    ensures Embeds(f + [|s|], sub + [x], s + [x])
  {
    var g := f + [|s|];
    assert forall i :: 0 <= i < |f| ==> g[i] == f[i];
  }

  /** The filtered list keeps exactly the banner ports of open, in order:
      it is a subsequence of open. */
  lemma KeepBannerPortsFacts(open: seq<int>)
    ensures forall p :: p in KeepBannerPorts(open) <==> p in open && p in BannerPorts
    ensures exists f: seq<nat> :: Embeds(f, KeepBannerPorts(open), open)
  {
    KeepBannerPortsMembers(open);
    KeepBannerPortsOrder(open);
  }

  lemma {:induction false} KeepBannerPortsMembers(open: seq<int>)
    ensures forall p :: p in KeepBannerPorts(open) <==> p in open && p in BannerPorts
    decreases |open|
  {
    if open != [] {
      var init := open[..|open| - 1];
      KeepBannerPortsMembers(init);
      assert open == init + [open[|open| - 1]];
    }
  }

  lemma {:induction false} KeepBannerPortsOrder(open: seq<int>)
    ensures exists f: seq<nat> :: Embeds(f, KeepBannerPorts(open), open)
    decreases |open|
  {
    if open == [] {
      assert Embeds([], KeepBannerPorts(open), open);
    } else {
      var init, x := open[..|open| - 1], open[|open| - 1];
      KeepBannerPortsOrder(init);
      var f: seq<nat> :| Embeds(f, KeepBannerPorts(init), init);
      assert open == init + [x];
      EmbedsAppend(f, KeepBannerPorts(init), init, x);
      if x in BannerPorts {
        assert Embeds(f + [|init|], KeepBannerPorts(open), open);
      } else {
        assert Embeds(f, KeepBannerPorts(open), open);
      }
    }
  }

  /** Only open ports from the priority list are probed, at most five, and
      they are the first such ports in open-port order. */
  lemma BannerProbesSpec(open: seq<int>)
    ensures |BannerProbes(open)| <= MaxBannerProbes
    ensures forall p :: p in BannerProbes(open) ==> p in open && p in BannerPorts
    ensures BannerProbes(open) <= KeepBannerPorts(open)
    ensures |KeepBannerPorts(open)| <= MaxBannerProbes ==> BannerProbes(open) == KeepBannerPorts(open)
    ensures |KeepBannerPorts(open)| > MaxBannerProbes ==> BannerProbes(open) == KeepBannerPorts(open)[..MaxBannerProbes]
  {
    KeepBannerPortsFacts(open);
  }

  datatype Banner = Banner(port: int, text: string)

  /** banners[port] = text: an existing port keeps its place. */
  function PutBanner(d: seq<Banner>, port: int, text: string): seq<Banner>
  {
    if d == [] then [Banner(port, text)]
    else if d[0].port == port then [Banner(port, text)] + d[1..]
    else [d[0]] + PutBanner(d[1..], port, text)
  }

  /** The banner-collection loop over the first |ports| probes; a read that
      yields nothing or an empty text is skipped. */
  function CollectBanners(ports: seq<int>, grab: int -> Option<string>): seq<Banner>
  {
    if ports == [] then []
    else
      var prev := CollectBanners(ports[..|ports| - 1], grab);
      var p := ports[|ports| - 1];
      match grab(p)
      case Some(t) => if t != "" then PutBanner(prev, p, t) else prev
      case None => prev
  }

  function Texts(d: seq<Banner>): (r: seq<string>)
    ensures |r| == |d| && forall i :: 0 <= i < |d| ==> r[i] == d[i].text
  {
    if d == [] then [] else [d[0].text] + Texts(d[1..])
  }

  /** The number of banners that match at least one of os's patterns. */
  function CountMatching(os: string, banners: seq<string>, matches: (string, string) -> bool): (n: nat)
    ensures n <= |banners|
  {
    if banners == [] then 0
    else CountMatching(os, banners[..|banners| - 1], matches) + (if matches(os, banners[|banners| - 1]) then 1 else 0)
  }

  function BannerScoresOver(oses: seq<string>, banners: seq<string>, matches: (string, string) -> bool): Scores
    requires banners != []
  {
    if oses == [] then []
    else
      var prev := BannerScoresOver(oses[..|oses| - 1], banners, matches);
      var os := oses[|oses| - 1];
      var m := CountMatching(os, banners, matches);
      if m > 0 then prev + [Score(os, Percent(m, |banners|))] else prev
  }

  /** detect_os_by_banners, with the socket reads given by grab and the
      regular expressions abstracted as matches(os, banner). */
  function BannerScores(open: seq<int>, grab: int -> Option<string>, matches: (string, string) -> bool): Scores
  {
    if open == [] then []
    else
      var banners := Texts(CollectBanners(BannerProbes(open), grab));
      if banners == [] then [] else BannerScoresOver(BannerOses, banners, matches)
  }

  /** Every entry names an OS of the list with a score in (0, 100], and no
      OS appears twice. */
  lemma {:induction false} BannerScoresOverEntries(oses: seq<string>, banners: seq<string>, matches: (string, string) -> bool)
    requires banners != [] && Distinct(oses)
    ensures forall e :: e in BannerScoresOver(oses, banners, matches) ==> 0.0 < e.value <= 100.0 && e.os in oses
    ensures Distinct(Names(BannerScoresOver(oses, banners, matches)))
    decreases |oses|
  {
    if oses != [] {
      var init := oses[..|oses| - 1];
      var os := oses[|oses| - 1];
      assert Distinct(init);
      BannerScoresOverEntries(init, banners, matches);
      var prev := BannerScoresOver(init, banners, matches);
      var m := CountMatching(os, banners, matches);
      assert os !in init;
      if m > 0 {
        PercentBounds(m, |banners|);
        var e := Score(os, Percent(m, |banners|));
        assert Names(prev + [e]) == Names(prev) + [os];
      }
    }
  }

  /** The score of oses[i] is 100 * (matching banners) / (banners), 0 when
      none matches. */
  lemma {:induction false} BannerScoreAt(oses: seq<string>, banners: seq<string>, matches: (string, string) -> bool, i: nat)
    requires banners != [] && Distinct(oses) && i < |oses|
    ensures Lookup(BannerScoresOver(oses, banners, matches), oses[i])
            == Percent(CountMatching(oses[i], banners, matches), |banners|)
    decreases |oses|
  {
    var init := oses[..|oses| - 1];
    var os := oses[|oses| - 1];
    assert Distinct(init);
    BannerScoresOverEntries(init, banners, matches);
    var prev := BannerScoresOver(init, banners, matches);
    var m := CountMatching(os, banners, matches);
    assert os !in Names(prev) by { assert os !in init; }
    var e := Score(os, Percent(m, |banners|));
    if m > 0 {
      LookupAppendNew(prev, e, oses[i]);
    }
    if i < |oses| - 1 {
      BannerScoreAt(init, banners, matches, i);
    } else {
      LookupAbsent(prev, os);
    }
  }

  /** Banner scoring: no banners give no scores; each OS scores
      100 * (matching banners) / (banners), which lies in (0, 100]. */
  lemma BannerScoresSpec(open: seq<int>, grab: int -> Option<string>, matches: (string, string) -> bool)
    ensures open == [] ==> BannerScores(open, grab, matches) == []
    ensures Texts(CollectBanners(BannerProbes(open), grab)) == [] ==> BannerScores(open, grab, matches) == []
    ensures Distinct(Names(BannerScores(open, grab, matches)))
    ensures forall e :: e in BannerScores(open, grab, matches) ==> 0.0 < e.value <= 100.0 && e.os in BannerOses
    ensures var banners := Texts(CollectBanners(BannerProbes(open), grab));
      open != [] && banners != [] ==>
        forall i :: 0 <= i < |BannerOses| ==>
          Lookup(BannerScores(open, grab, matches), BannerOses[i])
          == Percent(CountMatching(BannerOses[i], banners, matches), |banners|)
  {
    var banners := Texts(CollectBanners(BannerProbes(open), grab));
    if open != [] && banners != [] {
      assert Distinct(BannerOses);
      BannerScoresOverEntries(BannerOses, banners, matches);
      forall i | 0 <= i < |BannerOses|
        ensures Lookup(BannerScores(open, grab, matches), BannerOses[i])
                == Percent(CountMatching(BannerOses[i], banners, matches), |banners|)
      {
        BannerScoreAt(BannerOses, banners, matches, i);
      }
    }
  }

  /** The banner reads: each probed port's non-empty banner, keyed by port. */
  method GrabBanners(probes: seq<int>, grab: int -> Option<string>) returns (found: seq<Banner>)
    ensures found == CollectBanners(probes, grab)
  {
    found := [];
    var i := 0;
    while i < |probes|
      invariant 0 <= i <= |probes|
      invariant found == CollectBanners(probes[..i], grab)
    {
      var banner := grab(probes[i]);
      if banner.Some? && banner.value != "" {
        found := PutBanner(found, probes[i], banner.value);
      }
      assert probes[..i + 1][..i] == probes[..i];
      i := i + 1;
    }
    assert probes[..i] == probes;
  }

  /** The per-OS count: a banner counts once if any of os's patterns matches. */
  method CountBannerMatches(os: string, banners: seq<string>, matches: (string, string) -> bool) returns (count: nat)
    ensures count == CountMatching(os, banners, matches)
  {
    count := 0;
    var j := 0;
    while j < |banners|
      invariant 0 <= j <= |banners|
      invariant count == CountMatching(os, banners[..j], matches)
    {
      if matches(os, banners[j]) {
        count := count + 1;
      }
      assert banners[..j + 1][..j] == banners[..j];
      j := j + 1;
    }
    assert banners[..j] == banners;
  }

  /** detect_os_by_banners: gather the banners, then count matches per OS. */
  method DetectOsByBanners(open: seq<int>, grab: int -> Option<string>, matches: (string, string) -> bool)
    returns (scores: Scores)
    ensures scores == BannerScores(open, grab, matches)
  {
    if open == [] {
      return [];
    }
    var found := GrabBanners(BannerProbes(open), grab);
    var banners := Texts(found);
    if banners == [] {
      return [];
    }
    scores := [];
    var k := 0;
    while k < |BannerOses|
      invariant 0 <= k <= |BannerOses|
      invariant scores == BannerScoresOver(BannerOses[..k], banners, matches)
    {
      var os := BannerOses[k];
      var count := CountBannerMatches(os, banners, matches);
      if count > 0 {
        scores := scores + [Score(os, Percent(count, |banners|))];
      }
      assert BannerOses[..k + 1][..k] == BannerOses[..k];
      k := k + 1;
    }
    assert BannerOses[..k] == BannerOses;
  }

  // =====================================================================
  // Combination and the winner

  /** Points every TTL candidate receives. */
  const TtlPoints: real := 40.0

  /** The TTL step: every candidate in the list receives flat points. */
  function AddFlat(acc: Scores, oses: seq<string>): Scores
  {
    if oses == [] then acc else Add(AddFlat(acc, oses[..|oses| - 1]), oses[|oses| - 1], TtlPoints)
  }

  /** The weighted step: every scored OS receives 0.3 x its score (the port
      signal and the banner signal both weigh 30%). */
  function AddWeighted(acc: Scores, scores: Scores): Scores
  {
    if scores == [] then acc
    else
      var last := scores[|scores| - 1];
      Add(AddWeighted(acc, scores[..|scores| - 1]), last.os, 0.3 * last.value)
  }

  /** combined_scores as built by detect_os. */
  function Combined(ttlOs: seq<string>, portScores: Scores, bannerScores: Scores): Scores
  {
    AddWeighted(AddWeighted(AddFlat([], ttlOs), portScores), bannerScores)
  }

  lemma {:induction false} AddFlatNames(acc: Scores, oses: seq<string>)
    requires Distinct(Names(acc))
    ensures Distinct(Names(AddFlat(acc, oses)))
    ensures Names(AddFlat(acc, oses)) == AppendNew(Names(acc), oses)
    decreases |oses|
  {
    if oses != [] {
      AddFlatNames(acc, oses[..|oses| - 1]);
      AddNames(AddFlat(acc, oses[..|oses| - 1]), oses[|oses| - 1], TtlPoints);
    }
  }

  lemma {:induction false} AddFlatLookup(acc: Scores, oses: seq<string>, k: string)
    requires Distinct(oses)
    ensures Lookup(AddFlat(acc, oses), k) == Lookup(acc, k) + (if k in oses then TtlPoints else 0.0)
    decreases |oses|
  {
    if oses != [] {
      var init := oses[..|oses| - 1];
      var last := oses[|oses| - 1];
      assert Distinct(init);
      AddFlatLookup(acc, init, k);
      AddLookup(AddFlat(acc, init), last, TtlPoints, k);
      assert last !in init;
      assert k in oses <==> k in init || k == last;
    }
  }

  /** The names of all but the last score are the names but the last. */
  lemma NamesInit(scores: Scores)
    requires scores != []
    ensures Names(scores)[..|scores| - 1] == Names(scores[..|scores| - 1])
    ensures Names(scores)[|scores| - 1] == scores[|scores| - 1].os
  {
  }

  /** Appending only new names keeps a list free of duplicates. */
  lemma {:induction false} AppendNewDistinct(a: seq<string>, b: seq<string>)
    requires Distinct(a)
    ensures Distinct(AppendNew(a, b))
    decreases |b|
  {
    if b != [] {
      AppendNewDistinct(a, b[..|b| - 1]);
      var r := AppendNew(a, b[..|b| - 1]);
      if b[|b| - 1] !in r {
        DistinctAppend(r, b[|b| - 1]);
      }
    }
  }

  lemma AddWeightedNames(acc: Scores, scores: Scores)
    requires Distinct(Names(acc))
    ensures Distinct(Names(AddWeighted(acc, scores)))
    ensures Names(AddWeighted(acc, scores)) == AppendNew(Names(acc), Names(scores))
  {
    AddWeightedOrder(acc, scores);
    AppendNewDistinct(Names(acc), Names(scores));
  }

  /** The weighted additions list the accumulator's names, then each new
      name of the scores in order. */
  lemma {:induction false} AddWeightedOrder(acc: Scores, scores: Scores)
    ensures Names(AddWeighted(acc, scores)) == AppendNew(Names(acc), Names(scores))
    decreases |scores|
  {
    if scores != [] {
      var init := scores[..|scores| - 1];
      var last := scores[|scores| - 1];
      AddWeightedOrder(acc, init);
      NamesInit(scores);
      AddNamesOrder(AddWeighted(acc, init), last.os, 0.3 * last.value);
    }
  }

  lemma {:induction false} AddWeightedLookup(acc: Scores, scores: Scores, k: string)
    requires Distinct(Names(scores))
    ensures Lookup(AddWeighted(acc, scores), k) == Lookup(acc, k) + 0.3 * Lookup(scores, k)
    decreases |scores|
  {
    if scores != [] {
      var init := scores[..|scores| - 1];
      var last := scores[|scores| - 1];
      assert Names(scores) == Names(init) + [last.os];
      assert Distinct(Names(init)) by {
        assert forall i :: 0 <= i < |init| ==> Names(init)[i] == Names(scores)[i];
      }
      assert last.os !in Names(init);
      AddWeightedLookup(acc, init, k);
      AddLookup(AddWeighted(acc, init), last.os, 0.3 * last.value, k);
      LookupAppendNew(init, last, k);
      assert init + [last] == scores;
      if k == last.os {
        LookupAbsent(init, k);
      }
    }
  }

  /** Every combined total is 40 per TTL candidate plus 0.3 x port score
      plus 0.3 x banner score; the keys are the TTL list, then new
      port-score keys, then new banner keys, each once. */
  lemma CombinedSpec(ttlOs: seq<string>, portScores: Scores, bannerScores: Scores)
    requires Distinct(ttlOs) && Distinct(Names(portScores)) && Distinct(Names(bannerScores))
    ensures Distinct(Names(Combined(ttlOs, portScores, bannerScores)))
    ensures Names(Combined(ttlOs, portScores, bannerScores))
            == AppendNew(AppendNew(ttlOs, Names(portScores)), Names(bannerScores))
    ensures forall k :: (Lookup(Combined(ttlOs, portScores, bannerScores), k)
            == (if k in ttlOs then TtlPoints else 0.0) + 0.3 * Lookup(portScores, k)
               + 0.3 * Lookup(bannerScores, k))
  {
    AddFlatNames([], ttlOs);
    assert AppendNew([], ttlOs) == ttlOs by { AppendNewEmpty(ttlOs); }
    var a := AddFlat([], ttlOs);
    AddWeightedNames(a, portScores);
    AddWeightedNames(AddWeighted(a, portScores), bannerScores);
    forall k
      ensures Lookup(Combined(ttlOs, portScores, bannerScores), k)
              == (if k in ttlOs then TtlPoints else 0.0) + 0.3 * Lookup(portScores, k)
                 + 0.3 * Lookup(bannerScores, k)
    {
      AddFlatLookup([], ttlOs, k);
      AddWeightedLookup(a, portScores, k);
      AddWeightedLookup(AddWeighted(a, portScores), bannerScores, k);
    }
  }

  lemma {:induction false} AppendNewEmpty(b: seq<string>)
    requires Distinct(b)
    ensures AppendNew([], b) == b
    decreases |b|
  {
    if b != [] {
      var init := b[..|b| - 1];
      AppendNewEmpty(init);
      assert b[|b| - 1] !in init;
      assert init + [b[|b| - 1]] == b;
    }
  }

  lemma {:induction false} LookupBounds(d: Scores, lo: real, hi: real)
    requires lo <= 0.0 <= hi
    requires forall e :: e in d ==> lo <= e.value <= hi
    ensures forall k :: lo <= Lookup(d, k) <= hi
    decreases |d|
  {
    if d != [] {
      LookupBounds(d[1..], lo, hi);
    }
  }

  lemma {:induction false} LookupIsEntry(d: Scores, i: nat)
    requires i < |d| && Distinct(Names(d))
    ensures Lookup(d, d[i].os) == d[i].value
    decreases |d|
  {
    if i > 0 {
      assert Names(d)[0] != Names(d)[i];
      assert Distinct(Names(d[1..])) by {
        assert forall j :: 0 <= j < |d| - 1 ==> Names(d[1..])[j] == Names(d)[j + 1];
      }
      LookupIsEntry(d[1..], i - 1);
    }
  }

  /** Every combined total lies in [0, 100], so capping the winner at 100
      never changes it. */
  lemma CombinedBounds(ttlOs: seq<string>, portScores: Scores, bannerScores: Scores)
    requires Distinct(ttlOs) && Distinct(Names(portScores)) && Distinct(Names(bannerScores))
    requires forall e :: e in portScores ==> 0.0 <= e.value <= 100.0
    requires forall e :: e in bannerScores ==> 0.0 <= e.value <= 100.0
    ensures forall e :: e in Combined(ttlOs, portScores, bannerScores) ==> 0.0 <= e.value <= 100.0
  {
    CombinedSpec(ttlOs, portScores, bannerScores);
    LookupBounds(portScores, 0.0, 100.0);
    LookupBounds(bannerScores, 0.0, 100.0);
    var c := Combined(ttlOs, portScores, bannerScores);
    forall e | e in c ensures 0.0 <= e.value <= 100.0 {
      var i :| 0 <= i < |c| && c[i] == e;
      LookupIsEntry(c, i);
    }
  }

  /** The index Python's max(items, key=score) picks: the first maximal entry. */
  function BestIndex(d: Scores): (k: nat)
    requires d != []
    ensures k < |d|
    ensures forall j :: 0 <= j < |d| ==> d[j].value <= d[k].value
    ensures forall j :: 0 <= j < k ==> d[j].value < d[k].value
  {
    if |d| == 1 then 0
    else
      var b := BestIndex(d[..|d| - 1]);
      if d[|d| - 1].value > d[b].value then |d| - 1 else b
  }

  function Min100(x: real): real { if 100.0 < x then 100.0 else x }

  datatype Details = Details(ttl: Option<nat>, ttlOs: seq<string>, portScores: Scores, bannerScores: Scores)

  datatype Detection = Detection(os: string, confidence: real, details: Details)

  /** The verdict when ports are open: the first best combined total, capped
      at 100. */
  function Decide(ttl: Option<nat>, ttlOs: seq<string>, ps: Scores, bs: Scores): Detection
  {
    var combined := Combined(ttlOs, ps, bs);
    if combined != [] then
      var best := combined[BestIndex(combined)];
      Detection(best.os, Min100(best.value), Details(ttl, ttlOs, ps, bs))
    else Detection(Unknown, 0.0, Details(ttl, ttlOs, ps, bs))
  }

  /** detect_os: ping output, open ports (in dict-key order), banner reads and
      the pattern predicate in; the classification out. */
  function OsGuess(pingOutput: Option<string>, open: seq<int>, grab: int -> Option<string>,
                   matches: (string, string) -> bool): Detection
  {
    var ttl := GetTtl(pingOutput);
    var ttlOs := TtlCandidates(ttl);
    if open != [] then
      Decide(ttl, ttlOs, PortScores(open), BannerScores(open, grab, matches))
    else if ttlOs != [] && ttlOs[0] != Unknown then
      Detection(ttlOs[0], 40.0, Details(ttl, ttlOs, [], []))
    else
      Detection(Unknown, 0.0, Details(ttl, ttlOs, [], []))
  }

  lemma TtlCandidatesDistinct(ttl: Option<nat>)
    ensures Distinct(TtlCandidates(ttl)) && TtlCandidates(ttl) != []
  {
    if ttl.Some? {
      BaseTtlIsSmallestCeiling(ttl.value);
    }
  }

  /** With open ports the winner is the highest combined total, ties going
      to the earliest key; its confidence is its total, within [0, 100]. */
  lemma OsGuessWithPorts(pingOutput: Option<string>, open: seq<int>, grab: int -> Option<string>,
                         matches: (string, string) -> bool)
    requires open != []
    ensures var r := OsGuess(pingOutput, open, grab, matches);
      var c := Combined(r.details.ttlOs, r.details.portScores, r.details.bannerScores);
      && r.details.ttl == GetTtl(pingOutput)
      && r.details.ttlOs == TtlCandidates(GetTtl(pingOutput))
      && r.details.portScores == PortScores(open)
      && r.details.bannerScores == BannerScores(open, grab, matches)
      && 0.0 <= r.confidence <= 100.0
      && exists k :: 0 <= k < |c| && c[k].os == r.os && c[k].value == r.confidence
           && (forall j :: 0 <= j < |c| ==> c[j].value <= r.confidence)
           && (forall j :: 0 <= j < k ==> c[j].value < r.confidence)
  {
    TtlCandidatesDistinct(GetTtl(pingOutput));
    ScoreSetsWellFormed(open, grab, matches);
    DecideSpec(GetTtl(pingOutput), TtlCandidates(GetTtl(pingOutput)), PortScores(open), BannerScores(open, grab, matches));
  }

  /** With a non-empty candidate list and well-formed score sets, the verdict
      is the first entry with the highest combined total, which lies in
      [0, 100]. */
  lemma DecideSpec(ttl: Option<nat>, ttlOs: seq<string>, ps: Scores, bs: Scores)
    requires ttlOs != [] && Distinct(ttlOs) && Distinct(Names(ps)) && Distinct(Names(bs))
    requires forall e :: e in ps ==> 0.0 <= e.value <= 100.0
    requires forall e :: e in bs ==> 0.0 <= e.value <= 100.0
    ensures var r, c := Decide(ttl, ttlOs, ps, bs), Combined(ttlOs, ps, bs);
      && r.details == Details(ttl, ttlOs, ps, bs)
      && 0.0 <= r.confidence <= 100.0
      && exists k :: 0 <= k < |c| && c[k].os == r.os && c[k].value == r.confidence
           && (forall j :: 0 <= j < |c| ==> c[j].value <= r.confidence)
           && (forall j :: 0 <= j < k ==> c[j].value < r.confidence)
  {
    CombinedBounds(ttlOs, ps, bs);
    CombinedNonEmpty(ttlOs, ps, bs);
    var c := Combined(ttlOs, ps, bs);
    var k := BestIndex(c);
    assert c[k] in c;
  }

  /** The port and the banner scores are keyed once per OS and lie in
      [0, 100]. */
  lemma ScoreSetsWellFormed(open: seq<int>, grab: int -> Option<string>, matches: (string, string) -> bool)
    ensures Distinct(Names(PortScores(open))) && Distinct(Names(BannerScores(open, grab, matches)))
    ensures forall e :: e in PortScores(open) ==> 0.0 <= e.value <= 100.0
    ensures forall e :: e in BannerScores(open, grab, matches) ==> 0.0 <= e.value <= 100.0
  {
    PortScoresSpec(open);
    BannerScoresSpec(open, grab, matches);
  }

  /** The TTL candidates alone make the combined scores non-empty. */
  lemma CombinedNonEmpty(ttlOs: seq<string>, portScores: Scores, bannerScores: Scores)
    requires ttlOs != [] && Distinct(ttlOs) && Distinct(Names(portScores)) && Distinct(Names(bannerScores))
    ensures Combined(ttlOs, portScores, bannerScores) != []
  {
    CombinedSpec(ttlOs, portScores, bannerScores);
    AppendNewKeeps(ttlOs, Names(portScores));
    AppendNewKeeps(AppendNew(ttlOs, Names(portScores)), Names(bannerScores));
    assert ttlOs[0] in Names(Combined(ttlOs, portScores, bannerScores));
  }

  lemma {:induction false} AppendNewKeeps(a: seq<string>, b: seq<string>)
    ensures forall x :: x in a ==> x in AppendNew(a, b)
    decreases |b|
  {
    if b != [] {
      AppendNewKeeps(a, b[..|b| - 1]);
    }
  }

  /** Without open ports only the TTL speaks: its first candidate wins with 40
      unless it is the placeholder, which leaves the placeholder at 0. */
  lemma OsGuessWithoutPorts(pingOutput: Option<string>, grab: int -> Option<string>,
                            matches: (string, string) -> bool)
    ensures var r := OsGuess(pingOutput, [], grab, matches);
      var ttlOs := TtlCandidates(GetTtl(pingOutput));
      && r.details == Details(GetTtl(pingOutput), ttlOs, [], [])
      && (ttlOs[0] != Unknown ==> r.os == ttlOs[0] && r.confidence == 40.0)
      && (ttlOs[0] == Unknown ==> r.os == Unknown && r.confidence == 0.0)
      && (GetTtl(pingOutput).None? ==> r.os == Unknown && r.confidence == 0.0)
  {
    TtlCandidatesDistinct(GetTtl(pingOutput));
  }

  /** When the TTL names a single candidate and no banner scores exist, that
      candidate always wins: it holds 40 plus its own port share, and any
      other OS holds at most 0.3 x 100 = 30. */
  lemma SingleCandidateWinsWithoutBanners(x: string, ps: Scores)
    requires Distinct(Names(ps))
    requires forall e :: e in ps ==> 0.0 <= e.value <= 100.0
    ensures var c := Combined([x], ps, []);
      c != [] && BestIndex(c) == 0 && c[0].os == x && c[0].value == 40.0 + 0.3 * Lookup(ps, x)
  {
    CombinedSpec([x], ps, []);
    var c := Combined([x], ps, []);
    assert Names(c) == AppendNew([x], Names(ps));
    AppendNewPrefix([x], Names(ps));
    assert Names(c)[0] == x;
    LookupBounds(ps, 0.0, 100.0);
    LookupIsEntry(c, 0);
    assert c[0].value == 40.0 + 0.3 * Lookup(ps, x);
    forall j | 0 < j < |c| ensures c[j].value <= 30.0 {
      LookupIsEntry(c, j);
      assert Names(c)[j] != Names(c)[0];
    }
  }

  lemma {:induction false} CountOpenAll(signature: seq<int>, open: seq<int>)
    requires forall p :: p in signature ==> p in open
    ensures CountOpen(signature, open) == |signature|
    decreases |signature|
  {
    if signature != [] {
      var init := signature[..|signature| - 1];
      assert forall p :: p in init ==> p in signature;
      CountOpenAll(init, open);
    }
  }

  /** Port scores never name the placeholder. */
  lemma UnknownNotPortScored(open: seq<int>)
    ensures Unknown !in Names(PortScores(open))
  {
    var ps := PortScores(open);
    if open != [] {
      PortSignaturesFacts();
      PortScoresOverEntries(PortSignatures, open);
      forall i | 0 <= i < |ps| ensures Names(ps)[i] != Unknown {
        assert ps[i] in ps;
      }
    }
  }

  /** Ports {135, 139, 445, 3389} and no TTL: Windows scores 100 on ports,
      worth 30 after weighting, but the placeholder takes the flat 40 and
      wins. */
  lemma ExampleWindowsPortsWithoutTtl(grab: int -> Option<string>, matches: (string, string) -> bool)
    ensures var r := OsGuess(None, [135, 139, 445, 3389], grab, matches);
      r.os == Unknown && r.confidence == 40.0 && Lookup(r.details.portScores, "Windows") == 100.0
  {
    var open := [135, 139, 445, 3389];
    NoBannerPorts(open, grab, matches);
    WindowsPortsScore();
    UnknownNotPortScored(open);
    PortScoresSpec(open);
    LookupAbsent(PortScores(open), Unknown);
    SingleCandidateWinsWithoutBanners(Unknown, PortScores(open));
  }

  /** None of the ports is a banner port, so no banner is read. */
  lemma NoBannerPorts(open: seq<int>, grab: int -> Option<string>, matches: (string, string) -> bool)
    requires open == [135, 139, 445, 3389]
    ensures BannerScores(open, grab, matches) == []
  {
    KeepNoBannerPorts(open);
  }

  lemma {:induction false} KeepNoBannerPorts(open: seq<int>)
    requires forall p :: p in open ==> p !in BannerPorts
    ensures KeepBannerPorts(open) == []
    decreases |open|
  {
    if open != [] {
      assert forall p :: p in open[..|open| - 1] ==> p in open;
      KeepNoBannerPorts(open[..|open| - 1]);
    }
  }

  lemma WindowsPortsScore()
    ensures Lookup(PortScores([135, 139, 445, 3389]), "Windows") == 100.0
  {
    var open := [135, 139, 445, 3389];
    PortScoresSpec(open);
    CountOpenAll(PortSignatures[0].ports, open);
    assert Percent(4, 4) == 100.0;
  }

  /** A reply with TTL 128 and ports {80, 443, 22} with no banner read:
      Windows takes the flat 40 although none of its signature ports is
      open, ahead of FreeBSD (0.3 x 100 = 30). */
  lemma ExampleTtl128WebPorts(matches: (string, string) -> bool)
    ensures var r := OsGuess(Some("ttl=128"), [80, 443, 22], _ => None, matches);
      r.os == "Windows" && r.confidence == 40.0 && r.details.ttl == Some(128)
  {
    var open := [80, 443, 22];
    var grab: int -> Option<string> := _ => None;
    TtlOf128();
    CollectNothing(BannerProbes(open), grab);
    assert BannerScores(open, grab, matches) == [];
    WebPortsMissWindows();
    var ps := PortScores(open);
    PortScoresSpec(open);
    LookupAbsent(ps, "Windows");
    SingleCandidateWinsWithoutBanners("Windows", ps);
  }

  lemma TtlOf128()
    ensures GetTtl(Some("ttl=128")) == Some(128) && TtlCandidates(Some(128)) == ["Windows"]
  {
    assert NatToString(128) == "128";
    assert forall j :: 0 <= j ==> !TtlTagAt("", j);
    ParseTtlRoundTrip("", 128, "");
    assert "" + "ttl=" + "128" + "" == "ttl=128";
    assert BaseTtl(128) == 128;
  }

  lemma WebPortsMissWindows()
    ensures "Windows" !in Names(PortScores([80, 443, 22]))
  {
    var open := [80, 443, 22];
    var sigs := PortSignatures;
    PortSignaturesFacts();
    assert forall p :: p in sigs[0].ports ==> p !in open;
    PortScoreAt(sigs, open, 0);
  }

  lemma {:induction false} CollectNothing(ports: seq<int>, grab: int -> Option<string>)
    requires forall p :: grab(p).None?
    ensures CollectBanners(ports, grab) == []
    decreases |ports|
  {
    if ports != [] {
      CollectNothing(ports[..|ports| - 1], grab);
    }
  }

  lemma {:induction false} AppendNewPrefix(a: seq<string>, b: seq<string>)
    ensures |AppendNew(a, b)| >= |a| && AppendNew(a, b)[..|a|] == a
    decreases |b|
  {
    if b != [] {
      AppendNewPrefix(a, b[..|b| - 1]);
    }
  }

  /** The combination loops of detect_os. */
  method CombineScores(ttlOs: seq<string>, ps: Scores, bs: Scores) returns (combined: Scores)
    ensures combined == Combined(ttlOs, ps, bs)
  {
    combined := [];
    var i := 0;
    while i < |ttlOs|
      invariant 0 <= i <= |ttlOs|
      invariant combined == AddFlat([], ttlOs[..i])
    {
      combined := Add(combined, ttlOs[i], TtlPoints);
      assert ttlOs[..i + 1][..i] == ttlOs[..i];
      i := i + 1;
    }
    assert ttlOs[..i] == ttlOs;
    var afterTtl := combined;
    i := 0;
    while i < |ps|
      invariant 0 <= i <= |ps|
      invariant combined == AddWeighted(afterTtl, ps[..i])
    {
      combined := Add(combined, ps[i].os, 0.3 * ps[i].value);
      assert ps[..i + 1][..i] == ps[..i];
      i := i + 1;
    }
    assert ps[..i] == ps;
    var afterPorts := combined;
    i := 0;
    while i < |bs|
      invariant 0 <= i <= |bs|
      invariant combined == AddWeighted(afterPorts, bs[..i])
    {
      combined := Add(combined, bs[i].os, 0.3 * bs[i].value);
      assert bs[..i + 1][..i] == bs[..i];
      i := i + 1;
    }
    assert bs[..i] == bs;
  }

  /** detect_os: the three signals, their combination, then the winner. */
  method DetectOs(pingOutput: Option<string>, open: seq<int>, grab: int -> Option<string>,
                  matches: (string, string) -> bool) returns (result: Detection)
    ensures result == OsGuess(pingOutput, open, grab, matches)
  {
    var ttl, ttlOs := DetectOsByTtl(pingOutput);
    if open != [] {
      var ps := DetectOsByPorts(open);
      var bs := DetectOsByBanners(open, grab, matches);
      var combined := CombineScores(ttlOs, ps, bs);
      if combined != [] {
        var best := combined[BestIndex(combined)];
        result := Detection(best.os, Min100(best.value), Details(ttl, ttlOs, ps, bs));
      } else {
        result := Detection(Unknown, 0.0, Details(ttl, ttlOs, ps, bs));
      }
    } else if ttlOs != [] && ttlOs[0] != Unknown {
      result := Detection(ttlOs[0], 40.0, Details(ttl, ttlOs, [], []));
    } else {
      result := Detection(Unknown, 0.0, Details(ttl, ttlOs, [], []));
    }
  }
}
