/** The per-track bookkeeping ReadTracks sets up and ReadEnergyDepo fills:
    what each track looks like once the genealogy is linked and once the
    first n deposits have been credited to the track that made them. */
module Tracks {
  import opened Wrappers
  import opened Forest
  import opened Response

  /** A trajectory as the simulation stores it: its PDG code and its parent's id. */
  datatype Trajectory = Trajectory(pdg: int, parentId: int)

  /** An energy deposit (a track segment). `trackId` is its first
      contributor; `chargeMBox` is the value of the Modified Box formula and
      `peNoise`/`peNoiseMBox` are the sampled photoelectron counts minus
      their means, all given as inputs. */
  datatype Deposit = Deposit(trackId: int, energy: real, lengthMm: real, chargeMBox: real,
                             peNoise: PerYield, peNoiseMBox: PerYield)

  /** What the event keeps per track: the credited sums, the summed length
      of the track's own deposits (cm), the indices of those deposits, the
      indices of its daughters and its primary ancestor. */
  datatype TrackState = TrackState(deposited: Deposited, selfDepo: real, depoList: seq<nat>,
                                   children: seq<nat>, ancestor: nat)

  function Parents(trajs: seq<Trajectory>): (ps: seq<int>)
    ensures |ps| == |trajs| && forall i :: 0 <= i < |trajs| ==> ps[i] == trajs[i].parentId
  {
    seq(|trajs|, i requires 0 <= i < |trajs| => trajs[i].parentId)
  }

  /** Track i before linking: nothing credited, no daughters, its own ancestor. */
  function Unlinked(i: nat): TrackState {
    TrackState(Zero, 0.0, [], [], i)
  }

  /** The tracks once linked: each has its daughters in index order and its
      primary ancestor. */
  function Linked(parents: seq<int>): (ts: seq<TrackState>)
    requires Acyclic(parents)
    ensures |ts| == |parents|
    ensures forall i :: 0 <= i < |ts| ==> ts[i] == TrackState(Zero, 0.0, [], ChildrenOf(parents, i, |parents|), Root(parents, i))
  {
    seq(|parents|, i requires 0 <= i < |parents| => TrackState(Zero, 0.0, [], ChildrenOf(parents, i, |parents|), Root(parents, i)))
  }

  /** A primary track is its own ancestor; any other track's ancestor is a
      primary track whose subtree holds it, and it is the only such. */
  lemma LinkedAncestors(parents: seq<int>, i: nat)
    requires Acyclic(parents) && i < |parents|
    ensures parents[i] == -1 ==> Linked(parents)[i].ancestor == i
    ensures var a := Linked(parents)[i].ancestor;
      a < |parents| && parents[a] == -1 && IsDescendant(parents, a, i) &&
      forall r :: 0 <= r < |parents| && parents[r] == -1 && IsDescendant(parents, r, i) ==> r == a
  {
    forall r | 0 <= r < |parents| && parents[r] == -1 && IsDescendant(parents, r, i)
      ensures r == Root(parents, i)
    {
      RootUnique(parents, r, i);
    }
  }

  /** The deposit's length in cm (the simulation gives mm). */
  function LengthCm(d: Deposit): real {
    d.lengthMm * 0.1
  }

  /** What one deposit adds to its track, or the exception Birks law raises. */
  function Contribution(d: Deposit): (r: Result<Deposited>)
    ensures r.Ok? <==> ChargeBirksLaw(d.energy, LengthCm(d)).Ok?
    ensures r.Ok? ==> (r.value.energy == d.energy &&
      r.value.charge == Buckets(ChargeBirksLaw(d.energy, LengthCm(d)).value) &&
      r.value.chargeMBox == Buckets(d.chargeMBox))
  {
    match ChargeBirksLaw(d.energy, LengthCm(d))
    case Err(e) => Err(e)
    case Ok(q) =>
      var ldep := d.energy - q;
      var ldepMBox := d.energy - d.chargeMBox;
      Ok(Deposited(d.energy, Buckets(q), Buckets(d.chargeMBox),
                   BirksLight(ExpectedPE(ldep).Plus(d.peNoise)),
                   MBoxLight(ExpectedPEMBox(ldepMBox).Plus(d.peNoiseMBox))))
  }

  /** The light a deposit adds is the energy its charge model leaves for
      scintillation, plus the read-back sampling noise: without noise charge
      and light together give back the deposited energy. */
  lemma ContributionLight(d: Deposit)
    requires Contribution(d).Ok?
    ensures var c := Contribution(d).value;
      c.light == Uniform(d.energy - c.charge.all).Plus(BirksLight(d.peNoise)) &&
      c.lightMBox == Uniform(d.energy - c.chargeMBox.all).Plus(MBoxLight(d.peNoiseMBox))
  {
    var q := ChargeBirksLaw(d.energy, LengthCm(d)).value;
    LightReadBack(d.energy - q, d.peNoise);
    LightReadBack(d.energy - d.chargeMBox, d.peNoiseMBox);
  }

  /** A physical deposit (non-negative energy over a positive length, with a
      non-negative Modified Box charge) has ordered charge buckets. */
  lemma PhysicalContributionOrdered(d: Deposit)
    requires d.energy >= 0.0 && d.lengthMm > 0.0 && d.chargeMBox >= 0.0
    ensures Contribution(d).Ok?
    ensures Contribution(d).value.charge.Ordered() && Contribution(d).value.chargeMBox.Ordered()
  {
    var q := ChargeBirksLaw(d.energy, LengthCm(d)).value;
    ThresholdBuckets(q);
    ThresholdBuckets(d.chargeMBox);
  }

  /** Every deposit before n can be credited. */
  predicate CreditableUpTo(depos: seq<Deposit>, n: nat)
    requires n <= |depos|
  {
    forall i :: 0 <= i < n ==> Contribution(depos[i]).Ok?
  }

  /** The index of the first deposit from i on that Birks law rejects, or
      the number of deposits when there is none. */
  function FirstFailureFrom(depos: seq<Deposit>, i: nat): (k: nat)
    requires i <= |depos|
    ensures i <= k <= |depos|
    ensures forall j :: i <= j < k ==> Contribution(depos[j]).Ok?
    ensures k < |depos| ==> Contribution(depos[k]).Err?
    decreases |depos| - i
  {
    if i == |depos| || Contribution(depos[i]).Err? then i else FirstFailureFrom(depos, i + 1)
  }

  /** How far ReadEnergyDepo gets: the first deposit Birks law rejects. */
  function FirstFailure(depos: seq<Deposit>): (k: nat)
    ensures k <= |depos| && CreditableUpTo(depos, k)
    ensures k < |depos| ==> Contribution(depos[k]).Err?
  {
    FirstFailureFrom(depos, 0)
  }

  /** ReadEnergyDepo stops at i exactly when every deposit before i can be
      credited and deposit i (if any) cannot. */
  lemma FirstFailureAt(depos: seq<Deposit>, i: nat)
    requires i <= |depos| && CreditableUpTo(depos, i)
    requires i < |depos| ==> Contribution(depos[i]).Err?
    ensures FirstFailure(depos) == i
  {
  }

  /** The indices, in order, of the deposits among the first n made by track t. */
  function OwnDeposits(depos: seq<Deposit>, t: int, n: nat): (ds: seq<nat>)
    requires n <= |depos|
    ensures forall k :: 0 <= k < |ds| ==> ds[k] < n && depos[ds[k]].trackId == t
    ensures forall i :: 0 <= i < n && depos[i].trackId == t ==> i in ds
    ensures forall a, b :: 0 <= a < b < |ds| ==> ds[a] < ds[b]
  {
    if n == 0 then []
    else
      var ds := OwnDeposits(depos, t, n - 1);
      if depos[n - 1].trackId == t then ds + [n - 1] else ds
  }

  /** What the deposits among the first n made by track t add up to. */
  function OwnSum(depos: seq<Deposit>, t: int, n: nat): Deposited
    requires n <= |depos| && CreditableUpTo(depos, n)
  {
    if n == 0 then Zero
    else if depos[n - 1].trackId == t then OwnSum(depos, t, n - 1).Plus(Contribution(depos[n - 1]).value)
    else OwnSum(depos, t, n - 1)
  }

  /** The summed length (cm) of the deposits among the first n made by track t. */
  function OwnLength(depos: seq<Deposit>, t: int, n: nat): real
    requires n <= |depos|
  {
    if n == 0 then 0.0
    else if depos[n - 1].trackId == t then OwnLength(depos, t, n - 1) + LengthCm(depos[n - 1])
    else OwnLength(depos, t, n - 1)
  }

  /** Track t after the first n deposits have been credited. */
  function Credited(ts: seq<TrackState>, t: nat, depos: seq<Deposit>, n: nat): TrackState
    requires t < |ts| && n <= |depos| && CreditableUpTo(depos, n)
  {
    ts[t].(deposited := ts[t].deposited.Plus(OwnSum(depos, t, n)),
           selfDepo := ts[t].selfDepo + OwnLength(depos, t, n),
           depoList := ts[t].depoList + OwnDeposits(depos, t, n))
  }

  /** Crediting deposit n changes only the track that made it, and that one
      by exactly what ReadEnergyDepo adds for the deposit. */
  lemma CreditStep(ts: seq<TrackState>, t: nat, depos: seq<Deposit>, n: nat)
    requires t < |ts| && n < |depos| && CreditableUpTo(depos, n + 1)
    ensures depos[n].trackId == t ==>
      var c := Credited(ts, t, depos, n);
      Credited(ts, t, depos, n + 1) ==
        c.(deposited := c.deposited.Plus(Contribution(depos[n]).value),
           selfDepo := c.selfDepo + LengthCm(depos[n]),
           depoList := c.depoList + [n])
    ensures depos[n].trackId != t ==> Credited(ts, t, depos, n + 1) == Credited(ts, t, depos, n)
  {
    if depos[n].trackId == t {
      PlusAssoc(ts[t].deposited, OwnSum(depos, t, n), Contribution(depos[n]).value);
      assert ts[t].depoList + OwnDeposits(depos, t, n) + [n] == ts[t].depoList + (OwnDeposits(depos, t, n) + [n]);
    }
  }

  /** Every track of ts is track t of ts0 with the first n deposits credited. */
  predicate CreditedUpTo(ts0: seq<TrackState>, ts: seq<TrackState>, depos: seq<Deposit>, n: nat)
    requires n <= |depos| && CreditableUpTo(depos, n)
  {
    |ts| == |ts0| && forall t :: 0 <= t < |ts| ==> ts[t] == Credited(ts0, t, depos, n)
  }

  /** Crediting deposit n to its track moves every track from its state
      after n deposits to its state after n + 1. */
  lemma CreditAll(ts0: seq<TrackState>, ts: seq<TrackState>, depos: seq<Deposit>, n: nat, c: Deposited)
    requires n < |depos| && CreditableUpTo(depos, n + 1)
    requires 0 <= depos[n].trackId < |ts| && c == Contribution(depos[n]).value
    requires CreditedUpTo(ts0, ts, depos, n)
    ensures var k := depos[n].trackId;
      CreditedUpTo(ts0, ts[k := ts[k].(deposited := ts[k].deposited.Plus(c),
                                      selfDepo := ts[k].selfDepo + LengthCm(depos[n]),
                                      depoList := ts[k].depoList + [n])], depos, n + 1)
  {
    forall t | 0 <= t < |ts| {
      CreditStep(ts0, t, depos, n);
    }
  }

  /** Every deposit is made by a track of the event. */
  predicate DepositsOwned(depos: seq<Deposit>, nTracks: nat) {
    forall i :: 0 <= i < |depos| ==> 0 <= depos[i].trackId < nTracks
  }

  /** The deposit lists partition the deposits: every deposit index lies in
      its own track's list and in no other. */
  lemma DepositListsPartition(depos: seq<Deposit>, nTracks: nat, i: nat)
    requires DepositsOwned(depos, nTracks) && i < |depos|
    ensures i in OwnDeposits(depos, depos[i].trackId, |depos|)
    ensures forall t :: 0 <= t < nTracks && t != depos[i].trackId ==> i !in OwnDeposits(depos, t, |depos|)
  {
  }

  /** The total over the tracks below nTracks of what was credited to each. */
  function SumOverTracks(depos: seq<Deposit>, nTracks: nat, n: nat): Deposited
    requires n <= |depos| && CreditableUpTo(depos, n)
  {
    if nTracks == 0 then Zero else SumOverTracks(depos, nTracks - 1, n).Plus(OwnSum(depos, nTracks - 1, n))
  }

  /** The total over the first n deposits. */
  function SumOverDeposits(depos: seq<Deposit>, n: nat): Deposited
    requires n <= |depos| && CreditableUpTo(depos, n)
  {
    if n == 0 then Zero else SumOverDeposits(depos, n - 1).Plus(Contribution(depos[n - 1]).value)
  }

  /** What deposit n-1 adds to the tracks below nTracks. */
  function CreditToTracks(depos: seq<Deposit>, nTracks: nat, n: nat): Deposited
    requires 0 < n <= |depos| && CreditableUpTo(depos, n)
  {
    if 0 <= depos[n - 1].trackId < nTracks then Contribution(depos[n - 1]).value else Zero
  }

  lemma RearrangeOwn(a: Deposited, b: Deposited, c: Deposited)
    ensures a.Plus(Zero).Plus(b.Plus(c)) == a.Plus(b).Plus(c)
  {
  }

  lemma RearrangeOther(a: Deposited, x: Deposited, b: Deposited)
    ensures a.Plus(x).Plus(b) == a.Plus(b).Plus(x)
  {
  }

  lemma {:induction false} SumOverTracksStep(depos: seq<Deposit>, nTracks: nat, n: nat)
    requires 0 < n <= |depos| && CreditableUpTo(depos, n)
    ensures SumOverTracks(depos, nTracks, n) == SumOverTracks(depos, nTracks, n - 1).Plus(CreditToTracks(depos, nTracks, n))
    decreases nTracks
  {
    if nTracks == 0 {
      PlusZero(Zero);
    } else {
      SumOverTracksStep(depos, nTracks - 1, n);
      if depos[n - 1].trackId == nTracks - 1 {
        StepOwnTrack(depos, nTracks, n);
      } else {
        StepOtherTrack(depos, nTracks, n);
      }
    }
  }

  lemma StepOwnTrack(depos: seq<Deposit>, nTracks: nat, n: nat)
    requires 0 < n <= |depos| && CreditableUpTo(depos, n) && nTracks > 0
    requires depos[n - 1].trackId == nTracks - 1
    requires SumOverTracks(depos, nTracks - 1, n) == SumOverTracks(depos, nTracks - 1, n - 1).Plus(CreditToTracks(depos, nTracks - 1, n))
    ensures SumOverTracks(depos, nTracks, n) == SumOverTracks(depos, nTracks, n - 1).Plus(CreditToTracks(depos, nTracks, n))
  {
    var a := SumOverTracks(depos, nTracks - 1, n - 1);
    var b := OwnSum(depos, nTracks - 1, n - 1);
    var c := Contribution(depos[n - 1]).value;
    assert CreditToTracks(depos, nTracks - 1, n) == Zero;
    assert CreditToTracks(depos, nTracks, n) == c;
    assert OwnSum(depos, nTracks - 1, n) == b.Plus(c);
    RearrangeOwn(a, b, c);
  }

  lemma StepOtherTrack(depos: seq<Deposit>, nTracks: nat, n: nat)
    requires 0 < n <= |depos| && CreditableUpTo(depos, n) && nTracks > 0
    requires depos[n - 1].trackId != nTracks - 1
    requires SumOverTracks(depos, nTracks - 1, n) == SumOverTracks(depos, nTracks - 1, n - 1).Plus(CreditToTracks(depos, nTracks - 1, n))
    ensures SumOverTracks(depos, nTracks, n) == SumOverTracks(depos, nTracks, n - 1).Plus(CreditToTracks(depos, nTracks, n))
  {
    var a := SumOverTracks(depos, nTracks - 1, n - 1);
    var b := OwnSum(depos, nTracks - 1, n - 1);
    var x := CreditToTracks(depos, nTracks - 1, n);
    assert OwnSum(depos, nTracks - 1, n) == b;
    assert CreditToTracks(depos, nTracks, n) == x;
    RearrangeOther(a, x, b);
  }

  /** Conservation: with every deposit made by some track, the tracks' credits
      add up to the deposits' total. */
  lemma {:induction false} CreditConserved(depos: seq<Deposit>, nTracks: nat, n: nat)
    requires n <= |depos| && CreditableUpTo(depos, n) && DepositsOwned(depos, nTracks)
    ensures SumOverTracks(depos, nTracks, n) == SumOverDeposits(depos, n)
  {
    if n == 0 {
      ZeroTracks(depos, nTracks);
    } else {
      CreditConserved(depos, nTracks, n - 1);
      SumOverTracksStep(depos, nTracks, n);
    }
  }

  lemma {:induction false} ZeroTracks(depos: seq<Deposit>, nTracks: nat)
    ensures SumOverTracks(depos, nTracks, 0) == Zero
    decreases nTracks
  {
    if nTracks > 0 {
      ZeroTracks(depos, nTracks - 1);
      PlusZero(Zero);
    }
  }

  /** With physical deposits, every track's buckets stay ordered:
      th500 <= th75 <= total, for both charge models. */
  lemma {:induction false} OwnSumOrdered(depos: seq<Deposit>, t: int, n: nat)
    requires n <= |depos|
    requires forall i :: 0 <= i < n ==> depos[i].energy >= 0.0 && depos[i].lengthMm > 0.0 && depos[i].chargeMBox >= 0.0
    ensures CreditableUpTo(depos, n)
    ensures OwnSum(depos, t, n).charge.Ordered() && OwnSum(depos, t, n).chargeMBox.Ordered()
  {
    forall i | 0 <= i < n ensures Contribution(depos[i]).Ok? {
      PhysicalContributionOrdered(depos[i]);
    }
    if n > 0 {
      OwnSumOrdered(depos, t, n - 1);
      if depos[n - 1].trackId == t {
        var c := Contribution(depos[n - 1]).value;
        PhysicalContributionOrdered(depos[n - 1]);
        OrderedPlus(OwnSum(depos, t, n - 1).charge, c.charge);
        OrderedPlus(OwnSum(depos, t, n - 1).chargeMBox, c.chargeMBox);
      }
    }
  }
}
