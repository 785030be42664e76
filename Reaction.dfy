/** Decoding of the primary vertex's reaction string (the GENIE descriptor such
    as "nu:14;tgt:1000180400;N:2112;proc:Weak[CC],QES;") into the packed process
    code and the struck nucleon that the event summary stores as `nu_proc` and
    `nu_nucl`. */
module Reaction {
  import opened Wrappers
  import opened Strings

  datatype ReactionCode = ReactionCode(process: int, nucleon: int)

  /** The sub-code table for the part of the process name after CC or NC;
      anything missing from it counts 0. */
  const ProcTable: map<string, int> := map["QES" := 1, "RES" := 2, "DIS" := 3, "COH" := 4, "MEC" := 5]

  function SubCode(rest: string): (r: int)
    ensures 0 <= r <= 5
    ensures r != 0 <==> rest in {"QES", "RES", "DIS", "COH", "MEC"}
  {
    if rest in ProcTable then ProcTable[rest] else 0
  }

  /** The packed process code: 10 for a name starting with CC, 20 for NC,
      30 otherwise, plus the sub-code of what is left once every CC (or NC)
      has been removed. */
  function ProcessCode(proc: string): (r: int)
    ensures 10 <= r <= 35
  {
    if StartsWith(proc, "CC") then 10 + SubCode(RemoveAll(proc, "CC"))
    else if StartsWith(proc, "NC") then 20 + SubCode(RemoveAll(proc, "NC"))
    else 30 + SubCode(proc)
  }

  /** The tens digit of the packed code names the current family and the units
      digit is the table entry, so the code can be unpacked without loss. */
  lemma ProcessCodeUnpacks(proc: string)
    ensures ProcessCode(proc) / 10 == 1 <==> StartsWith(proc, "CC")
    ensures ProcessCode(proc) / 10 == 2 <==> !StartsWith(proc, "CC") && StartsWith(proc, "NC")
    ensures ProcessCode(proc) / 10 == 3 <==> !StartsWith(proc, "CC") && !StartsWith(proc, "NC")
    ensures ProcessCode(proc) % 10 ==
      SubCode(if StartsWith(proc, "CC") then RemoveAll(proc, "CC")
              else if StartsWith(proc, "NC") then RemoveAll(proc, "NC")
              else proc)
  {
  }

  /** A field the parser takes as the process field. */
  predicate IsProcField(x: string) {
    Contains(x, "proc:")
  }

  /** A field the parser takes as the nucleon field: it holds "N:" and is not
      a process field (the nucleon test is the `elif` branch). */
  predicate IsNucleonField(x: string) {
    !Contains(x, "proc:") && Contains(x, "N:")
  }

  /** The process name carried by a process field. */
  function CleanProc(x: string): string {
    RemoveAll(RemoveAll(RemoveAll(x, "proc:"), "Weak["), "],")
  }

  /** The text of a nucleon field once "N:" is removed, read as `int()` does. */
  function NucleonValue(x: string): Option<int> {
    ParseInt(RemoveAll(x, "N:"))
  }

  /** The last process field among fields[2..hi]. */
  function LastProc(fields: seq<string>, hi: nat): (r: Option<nat>)
    requires hi <= |fields|
    ensures r.Some? ==> 2 <= r.value < hi && IsProcField(fields[r.value])
    ensures r.Some? ==> forall i :: r.value < i < hi ==> !IsProcField(fields[i])
    ensures r.None? <==> forall i :: 2 <= i < hi ==> !IsProcField(fields[i])
    decreases hi
  {
    if hi <= 2 then None
    else if IsProcField(fields[hi - 1]) then Some(hi - 1)
    else LastProc(fields, hi - 1)
  }

  /** The last nucleon field among fields[2..hi]. */
  function LastNucleon(fields: seq<string>, hi: nat): (r: Option<nat>)
    requires hi <= |fields|
    ensures r.Some? ==> 2 <= r.value < hi && IsNucleonField(fields[r.value])
    ensures r.Some? ==> forall i :: r.value < i < hi ==> !IsNucleonField(fields[i])
    ensures r.None? <==> forall i :: 2 <= i < hi ==> !IsNucleonField(fields[i])
    decreases hi
  {
    if hi <= 2 then None
    else if IsNucleonField(fields[hi - 1]) then Some(hi - 1)
    else LastNucleon(fields, hi - 1)
  }

  /** Every nucleon field among fields[2..hi] holds an integer literal. */
  predicate NucleonFieldsParse(fields: seq<string>, hi: nat)
    requires hi <= |fields|
  {
    forall j :: 2 <= j < hi && IsNucleonField(fields[j]) ==> NucleonValue(fields[j]).Some?
  }

  function ProcName(fields: seq<string>, hi: nat): string
    requires hi <= |fields|
  {
    match LastProc(fields, hi)
    case None => ""
    case Some(j) => CleanProc(fields[j])
  }

  function Nucleon(fields: seq<string>, hi: nat): int
    requires hi <= |fields| && NucleonFieldsParse(fields, hi)
  {
    match LastNucleon(fields, hi)
    case None => 0
    case Some(j) => NucleonValue(fields[j]).value
  }

  /** What the reaction string decodes to: the last process field and the last
      nucleon field from the third ';'-separated field on decide, and a
      nucleon field that is not an integer literal raises ValueError. */
  function ParseReaction(s: string): Result<ReactionCode> {
    var fields := Split(s, ';');
    if NucleonFieldsParse(fields, |fields|) then
      Ok(ReactionCode(ProcessCode(ProcName(fields, |fields|)), Nucleon(fields, |fields|)))
    else
      Err("ValueError: invalid literal for int()")
  }

  /** Event.GetReaction: one pass over the fields from the third on, each
      process field overwriting the process name and each nucleon field
      overwriting the nucleon; then the name is packed. */
  method GetReaction(reaction: string) returns (r: Result<ReactionCode>)
    ensures r == ParseReaction(reaction)
  {
    var txtList := Split(reaction, ';');
    var n := |txtList|;
    var proc := "";
    var nucl := 0;
    // `txt_list[2:]` is empty when there are fewer than three fields
    var k := if n < 2 then n else 2;
    while k < n
      invariant k <= n
      invariant proc == ProcName(txtList, k)
      invariant NucleonFieldsParse(txtList, k) && nucl == Nucleon(txtList, k)
    {
      var x := txtList[k];
      if Contains(x, "proc:") {
        proc := CleanProc(x);
      } else if Contains(x, "N:") {
        var v := NucleonValue(x);
        if v.None? {
          assert !NucleonFieldsParse(txtList, n);
          return Err("ValueError: invalid literal for int()");
        }
        nucl := v.value;
      }
      k := k + 1;
    }
    r := Ok(ReactionCode(ProcessCode(proc), nucl));
  }

  lemma {:induction false} LastFieldsAgree(f1: seq<string>, f2: seq<string>, hi: nat)
    requires hi <= |f1| == |f2|
    requires forall j :: 2 <= j < |f1| ==> f1[j] == f2[j]
    ensures LastProc(f1, hi) == LastProc(f2, hi)
    ensures LastNucleon(f1, hi) == LastNucleon(f2, hi)
    decreases hi
  {
    if hi > 2 {
      LastFieldsAgree(f1, f2, hi - 1);
    }
  }

  /** Only the fields from the third on are read: two strings whose fields
      agree from there on decode alike. */
  lemma OnlyThirdFieldOnIsRead(s1: string, s2: string)
    requires |Split(s1, ';')| >= 2 && |Split(s2, ';')| >= 2
    requires Split(s1, ';')[2..] == Split(s2, ';')[2..]
    ensures ParseReaction(s1) == ParseReaction(s2)
  {
    var f1, f2 := Split(s1, ';'), Split(s2, ';');
    assert |f1| == |f2|;
    forall j | 2 <= j < |f1| ensures f1[j] == f2[j] {
      assert f1[j] == f1[2..][j - 2];
    }
    LastFieldsAgree(f1, f2, |f1|);
    assert NucleonFieldsParse(f1, |f1|) == NucleonFieldsParse(f2, |f2|);
  }

  lemma {:induction false} LastProcIs(fields: seq<string>, j: nat, hi: nat)
    requires 2 <= j < hi <= |fields| && IsProcField(fields[j])
    requires forall i :: j < i < hi ==> !IsProcField(fields[i])
    ensures LastProc(fields, hi) == Some(j)
    decreases hi
  {
    if hi - 1 != j {
      LastProcIs(fields, j, hi - 1);
    }
  }

  lemma {:induction false} NoProcField(fields: seq<string>, hi: nat)
    requires hi <= |fields|
    requires forall i :: 2 <= i < hi ==> !IsProcField(fields[i])
    ensures LastProc(fields, hi) == None
    decreases hi
  {
    if hi > 2 {
      NoProcField(fields, hi - 1);
    }
  }

  lemma {:induction false} NoNucleonField(fields: seq<string>, hi: nat)
    requires hi <= |fields|
    requires forall i :: 2 <= i < hi ==> !IsNucleonField(fields[i])
    ensures LastNucleon(fields, hi) == None
    decreases hi
  {
    if hi > 2 {
      NoNucleonField(fields, hi - 1);
    }
  }

  lemma {:induction false} LastNucleonIs(fields: seq<string>, j: nat, hi: nat)
    requires 2 <= j < hi <= |fields| && IsNucleonField(fields[j])
    requires forall i :: j < i < hi ==> !IsNucleonField(fields[i])
    ensures LastNucleon(fields, hi) == Some(j)
    decreases hi
  {
    if hi - 1 != j {
      LastNucleonIs(fields, j, hi - 1);
    }
  }

  /** A later process field overrides every earlier one. */
  lemma LastProcFieldWins(s: string, j: nat)
    requires 2 <= j < |Split(s, ';')| && IsProcField(Split(s, ';')[j])
    requires forall i :: j < i < |Split(s, ';')| ==> !IsProcField(Split(s, ';')[i])
    requires ParseReaction(s).Ok?
    ensures ParseReaction(s).value.process == ProcessCode(CleanProc(Split(s, ';')[j]))
  {
    var fields := Split(s, ';');
    LastProcIs(fields, j, |fields|);
  }

  /** A later nucleon field overrides every earlier one. */
  lemma LastNucleonFieldWins(s: string, j: nat)
    requires 2 <= j < |Split(s, ';')| && IsNucleonField(Split(s, ';')[j])
    requires forall i :: j < i < |Split(s, ';')| ==> !IsNucleonField(Split(s, ';')[i])
    requires ParseReaction(s).Ok?
    ensures NucleonValue(Split(s, ';')[j]).Some?
    ensures ParseReaction(s).value.nucleon == NucleonValue(Split(s, ';')[j]).value
  {
    var fields := Split(s, ';');
    LastNucleonIs(fields, j, |fields|);
  }

  /** Without a process field the code is exactly 30. */
  lemma NoProcFieldGives30(s: string)
    requires forall i :: 2 <= i < |Split(s, ';')| ==> !IsProcField(Split(s, ';')[i])
    requires ParseReaction(s).Ok?
    ensures ParseReaction(s).value.process == 30
  {
    var fields := Split(s, ';');
    NoProcField(fields, |fields|);
  }

  /** When every field holding "N:" is a process field, no nucleon is read:
      decoding cannot fail and the nucleon stays 0. */
  lemma NucleonDefaultsToZero(s: string)
    requires forall i :: 2 <= i < |Split(s, ';')| ==> (Contains(Split(s, ';')[i], "N:") ==> IsProcField(Split(s, ';')[i]))
    ensures ParseReaction(s).Ok? && ParseReaction(s).value.nucleon == 0
  {
    var fields := Split(s, ';');
    NoNucleonField(fields, |fields|);
  }

  /** A CC or NC name whose remainder is not in the table keeps the bare base. */
  lemma UnlistedRemainderKeepsBase(proc: string)
    requires StartsWith(proc, "CC") || StartsWith(proc, "NC")
    requires var rest := RemoveAll(proc, if StartsWith(proc, "CC") then "CC" else "NC");
             rest !in {"QES", "RES", "DIS", "COH", "MEC"}
    ensures ProcessCode(proc) == if StartsWith(proc, "CC") then 10 else 20
  {
  }
}
