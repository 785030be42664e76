# PyEdep `Event`: the per-event core, modelled in Dafny

PyEdep reads edep-sim output (liquid-argon detector simulation) one entry at a
time. For each entry, the `Event` class does the following:

- It takes the primary vertex and decodes the GENIE reaction string into a
  packed process code and a struck-nucleon code.
- It links the trajectories into a forest. Each track lists its daughters and
  knows the primary track above it.
- It credits every energy deposit to the track that made it. The track gains
  the deposit's energy and length, its Birks-law charge and its Modified Box
  charge. Each charge is split into a total, an above-75-keV bucket and an
  above-500-keV bucket. Finally the track gains the scintillation light at
  five photon-yield operating points, for each charge model.
- It folds each track's sums over its descendants.
- It builds the event summary from the vertex particles. The summary holds
  scalar totals and eight per-category slots: lepton, proton, neutron, charged
  pion, neutral pion, gamma, alpha and other. Categories follow the PDG Monte
  Carlo particle numbering scheme; the alpha is nucleus code 1000020040.

A cursor steps through the entries cyclically. A helper counts the primary
neutrons of an entry, and another sorts space-time points by time.

The model has one module per concern:

| Module | What it holds |
|---|---|
| `Strings` | The Python string built-ins the parser uses (`split`, `replace`, `in`, `startswith`, `int()` with the whitespace stripping it does), plus `join` and `str()` as their inverses. |
| `Reaction` | `GetReaction` as a loop, proved against a declarative decoding. |
| `Forest` | Parent links, acyclicity, depth, root, subtree and daughters. |
| `Response` | Birks law over `real`, the threshold buckets, the light read-back and the `Deposited` record that every sum is made of. |
| `Tracks` | The per-track records and what crediting deposits does to them. |
| `Descendants` | The recursive descendant fold and a flat reference sum over the subtree. |
| `Summary` | PDG classification, per-particle tallies and the summary. |
| `Reorder` | `reorder_by_time` as a stable insertion sort. |
| `Cursor` | `Next` / `Prev` arithmetic. |
| `Events` | The `Event` class: a `currentEntry` cursor, `vertex`, `trajectories`, `depos`, `tracks` and `info`, with imperative methods proved against the functions above. |

The two source files carry the same algorithms. Citations below use
`event_stoneversion.py`, the version that parses. They use `event.py` for the
two members that exist only there: `reorder_by_time` and `selectneutronevent`.
Energies, charges and lengths are `real`, so sums are exact. The source adds
Python floats.

## Model

| member | source | states |
|---|---|---|
| Strings.Split | event_stoneversion.py:150 | `split(';')` yields at least one field, and no field contains the separator |
| Strings.JoinSplit | event_stoneversion.py:150 | Joining the fields of a split gives back the original string |
| Strings.SplitJoin | event_stoneversion.py:150 | Splitting a join of separator-free fields gives back the fields |
| Strings.ContainsIffOccurs | event_stoneversion.py:154-156 | `p in s` holds exactly when p occurs at some position of s |
| Strings.RemoveAll | event_stoneversion.py:155-157 | `replace(p, '')` never lengthens a string, and leaves it alone when p does not occur |
| Strings.StripLeft | event_stoneversion.py:157 | The result is no longer than the input and does not start with whitespace |
| Strings.StripRight | event_stoneversion.py:157 | The result is no longer than the input and does not end with whitespace |
| Strings.ShowNat | event_stoneversion.py:157 | `str(n)` of a natural number is all digits |
| Strings.DigitsValueShowNat | event_stoneversion.py:157 | Reading the digits of `str(n)` gives n |
| Strings.ParseIntShowInt | event_stoneversion.py:157 | `int(str(n)) == n` for every integer, negative ones included |
| Reaction.SubCode | event_stoneversion.py:168-175 | The table value lies in 0..5. It is non-zero exactly for QES, RES, DIS, COH and MEC |
| Reaction.ProcessCode | event_stoneversion.py:159-175 | The packed process code always lies in 10..35 |
| Reaction.ProcessCodeUnpacks | event_stoneversion.py:159-175 | Tens digit 1 iff the name starts with CC. Tens digit 2 iff it starts with NC and not CC. Tens digit 3 otherwise. The units digit is the table value of the remainder (the whole name when neither prefix matches) |
| Reaction.LastProc | event_stoneversion.py:153-155 | The field found is a process field at index 2 or later with no process field after it. None is found iff there is no process field from index 2 on |
| Reaction.LastNucleon | event_stoneversion.py:153-157 | The field found is a nucleon field (contains `N:` and not `proc:`) at index 2 or later with no nucleon field after it. None is found iff there is no nucleon field from index 2 on |
| Reaction.GetReaction | event_stoneversion.py:149-176 | The token loop returns exactly the declarative decoding: the last process field, the last nucleon field, and ValueError (Err) when a nucleon field is not an integer |
| Reaction.LastFieldsAgree | event_stoneversion.py:153 | Fields 0 and 1 never influence which process and nucleon fields are read |
| Reaction.OnlyThirdFieldOnIsRead | event_stoneversion.py:150-153 | Two reaction strings that agree from the third `;` field on decode identically |
| Reaction.LastProcIs | event_stoneversion.py:153-155 | A process field with no process field after it is the one read |
| Reaction.NoProcField | event_stoneversion.py:151-155 | With no process field, none is read |
| Reaction.NoNucleonField | event_stoneversion.py:152-157 | With no nucleon field, none is read |
| Reaction.LastProcFieldWins | event_stoneversion.py:153-155 | A later `proc:` field overrides every earlier one |
| Reaction.LastNucleonIs | event_stoneversion.py:153-157 | A nucleon field with no nucleon field after it is the one read |
| Reaction.LastNucleonFieldWins | event_stoneversion.py:153-157 | A later `N:` field overrides every earlier one: the nucleon decoded is the integer value of the last nucleon field |
| Reaction.NoProcFieldGives30 | event_stoneversion.py:151-176 | Without a `proc:` field the process code is exactly 30 |
| Reaction.NucleonDefaultsToZero | event_stoneversion.py:152-157 | When every field holding `N:` also holds `proc:` (elif), the decoding succeeds with nucleon 0 |
| Reaction.UnlistedRemainderKeepsBase | event_stoneversion.py:159-175 | A CC or NC name whose remainder is not in the table gives exactly 10 or 20 |
| Forest.DepthFuel | event_stoneversion.py:212-214 | The walk up the parent links, when it reaches a primary track within the fuel, takes fewer steps than the fuel |
| Forest.DepthFuelMore | event_stoneversion.py:212-214 | More fuel does not change a walk that already ends |
| Forest.Depth | event_stoneversion.py:212-214 | Depth is below the number of tracks, and it is 0 exactly for primary tracks |
| Forest.DepthStep | event_stoneversion.py:208-214 | A child lies exactly one level below its parent, so the walk in ReadTracks strictly climbs |
| Forest.Root | event_stoneversion.py:212-214 | The ancestor reached by the walk is a primary track and has the track in its subtree |
| Forest.DescendantDepth | event_stoneversion.py:212-214 | An ancestor lies no deeper than its descendant, and lies as deep only when it is the track itself |
| Forest.DescendantTrans | event_stoneversion.py:718-724 | Subtrees nest: a descendant of a descendant is a descendant |
| Forest.AncestorAtDepthUnique | event_stoneversion.py:212-214 | A track has at most one ancestor at each depth |
| Forest.RootUnique | event_stoneversion.py:212-214 | The primary track above a track is unique |
| Forest.RootOfChild | event_stoneversion.py:208-214 | A track and its parent have the same ancestor |
| Forest.ChildOnPath | event_stoneversion.py:718-724 | A proper descendant of t lies below exactly one daughter of t |
| Forest.OutsideSubtree | event_stoneversion.py:718-724 | Outside t's subtree, no daughter of t reaches the track either |
| Forest.NotBelowOwnChild | event_stoneversion.py:718-724 | No track lies in the subtree of one of its own daughters |
| Forest.ChildrenOf | event_stoneversion.py:206-211 | The daughter list holds exactly the tracks whose parent is t, in strictly ascending index order |
| Forest.ChildListedUnderParentOnly | event_stoneversion.py:206-211 | A track is listed under t iff t is its parent; a primary track is listed nowhere |
| Response.ChargeBirksLaw | event_stoneversion.py:309-315 | Zero length raises ZeroDivisionError (Err). Err happens only at zero length or at a negative energy per length. For e >= 0 and l > 0 the charge lies in [0, 0.664*e] |
| Response.BirksClosedForm | event_stoneversion.py:309-315 | For physical deposits, charge * (1 + k*e) = 0.664*e with k = 0.0972/(1.4*l) |
| Response.BirksMonotone | event_stoneversion.py:309-315 | Over a fixed length, more energy yields strictly more charge |
| Response.BirksSaturates | event_stoneversion.py:309-315 | Recombination caps the charge below 0.664*1.4*l/0.0972, whatever the energy |
| Response.ThresholdBuckets | event_stoneversion.py:235-241 | Every charge goes into the total. The 75 keV and 500 keV buckets take it on independent strict tests, so 0.075 exactly is excluded and above 0.5 both take it. A non-negative charge gives th500 <= th75 <= total |
| Response.OrderedPlus | event_stoneversion.py:235-241 | Sums of ordered bucket triples stay ordered |
| Response.LightReadBack | event_stoneversion.py:260-291 | Converting photoelectrons back to MeV inverts the expected photoelectron count at all five operating points and for both charge models. The detected light is the light energy plus the read-back of the sampling deviation |
| Response.PlusAssoc | event_stoneversion.py:718-784 | Adding the deposit sums is associative, so the order the folds add in does not matter |
| Response.PlusComm | event_stoneversion.py:718-784 | Adding the deposit sums is commutative |
| Response.PlusZero | event_stoneversion.py:181-200 | The all-zero record the tracks start from is neutral for addition |
| Tracks.LinkedAncestors | event_stoneversion.py:205-214 | A primary track keeps itself as its ancestor. Every ancestor is the unique primary track that has the track in its subtree |
| Tracks.Contribution | event_stoneversion.py:226-241 | A deposit is creditable iff Birks law is defined on it. It adds its energy, the Birks buckets of its charge and the Modified Box buckets of its Modified Box charge |
| Tracks.ContributionLight | event_stoneversion.py:260-301 | The light a deposit adds is (energy - charge) plus the read-back noise, for both charge models |
| Tracks.PhysicalContributionOrdered | event_stoneversion.py:226-241 | A deposit with non-negative energy, positive length and non-negative Modified Box charge is creditable, and its buckets are ordered |
| Tracks.FirstFailure | event_stoneversion.py:226-228 | ReadEnergyDepo gets as far as the first deposit Birks law rejects: every deposit before it is creditable, and it is not |
| Tracks.FirstFailureFrom | event_stoneversion.py:226-228 | The same, searching from a given index |
| Tracks.FirstFailureAt | event_stoneversion.py:226-228 | That stopping point is unique |
| Tracks.OwnDeposits | event_stoneversion.py:230-233 | A track's deposit list holds exactly the indices of its own deposits, in ascending order |
| Tracks.CreditStep | event_stoneversion.py:230-241 | Crediting one deposit changes only its own track, and that one by exactly the deposit's energy, length and index |
| Tracks.CreditAll | event_stoneversion.py:226-301 | One loop step takes every track from its state after n deposits to its state after n+1 |
| Tracks.DepositListsPartition | event_stoneversion.py:230-233 | Every deposit index is in its own track's list and in no other track's |
| Tracks.SumOverTracksStep | event_stoneversion.py:226-237 | Crediting one more deposit adds it to the sum over tracks exactly once |
| Tracks.StepOwnTrack | event_stoneversion.py:226-237 | The step of SumOverTracksStep when the last track counted made the deposit |
| Tracks.StepOtherTrack | event_stoneversion.py:226-237 | The step of SumOverTracksStep when it did not |
| Tracks.CreditConserved | event_stoneversion.py:226-237 | The credited sums over all tracks equal the sum over all deposits: energy, charges, buckets and light |
| Tracks.ZeroTracks | event_stoneversion.py:181-200 | Before any deposit, the sum over tracks is zero |
| Tracks.OwnSumOrdered | event_stoneversion.py:235-241 | With physical deposits, every track ends with th500 <= th75 <= total charge, for Birks and Modified Box alike |
| Descendants.ChildrenFlatStep | event_stoneversion.py:718-724 | Extending the flat sums of the daughters by one track adds what that track contributes through them |
| Descendants.HitsNone | event_stoneversion.py:718-724 | A track below none of the daughters adds nothing through them |
| Descendants.HitsOne | event_stoneversion.py:718-724 | A track below exactly one daughter is counted once through them |
| Descendants.HitsOfDaughters | event_stoneversion.py:718-724 | Through the daughters of t, a track is counted once if it is a proper descendant of t and otherwise not at all |
| Descendants.FlatSumSplits | event_stoneversion.py:718-724 | The flat sum over t's subtree is t's own sum plus the flat sums of its daughters |
| Descendants.ChildrenFlatZero | event_stoneversion.py:718-724 | Over no tracks, the flat sums of the daughters are zero |
| Descendants.SubtreeSumIsFlat | event_stoneversion.py:718-784 | The recursive descendant fold equals the sum of the tracks' own sums over the whole subtree, for all five quantities |
| Descendants.ChildrenSumIsFlat | event_stoneversion.py:718-784 | The loop over the daughters adds up exactly their subtree sums |
| Descendants.ChildlessFold | event_stoneversion.py:718-724 | A track without daughters folds to its own sums |
| Summary.SlotOf | event_stoneversion.py:432-615 | Every category has one of the eight slots |
| Summary.SlotsDistinct | event_stoneversion.py:432-615 | Distinct categories use distinct slots, so a particle lands in exactly one |
| Summary.ClassifyCodes | event_stoneversion.py:432-615 | Both directions for each slot: ±11 and ±13 are leptons, 2212 protons, 2112 neutrons, ±211 charged pions, 111 neutral pions, 22 gammas, 1000020040 alphas, and every other code is other |
| Summary.AvailableEnergy | event_stoneversion.py:409-615 | Kinetic energy plus mass for leptons, pions and photons. Kinetic energy alone for protons, neutrons, alphas and everything else |
| Summary.TrackOrDots | event_stoneversion.py:386-392 | A particle whose own track is longer than 2 cm counts its own deposit energy as track energy and no dots. Otherwise it counts no track energy and its own above-75-keV charge as dots. The subtree is never consulted |
| Summary.EmptyInfo | event_stoneversion.py:59-105 | The fresh summary has eight slots and eight counts |
| Summary.AddParticle | event_stoneversion.py:412-615 | Adding a particle adds its tally to the totals and to its category's slot, raises that category's count by one, and leaves every other slot and count and the header fields untouched |
| Summary.SumTalliesUpdate | event_stoneversion.py:412-615 | Adding to one slot adds the same amount to the sum of the slots |
| Summary.SumNatsUpdate | event_stoneversion.py:432-615 | Raising one count by one raises the sum of the counts by one |
| Summary.AddParticleConsistent | event_stoneversion.py:412-615 | After a particle, every total still equals the sum of its slots (E_avail and E_availList, E_depoTotal and E_depoList, and so on), and one more particle is counted |
| Summary.EmptyInfoConsistent | event_stoneversion.py:59-105 | The fresh summary is consistent and counts no particles |
| Summary.NoTallies | event_stoneversion.py:59-105 | Zero slots sum to zero |
| Summary.NoParticles | event_stoneversion.py:59-105 | Zero counts sum to zero |
| Summary.Summarize | event_stoneversion.py:376-615 | The particle loop keeps the summary well shaped |
| Summary.SummarizeStep | event_stoneversion.py:376-615 | One more particle: skipped when its track id is negative, otherwise added to its slot |
| Summary.SummarizeConsistent | event_stoneversion.py:376-615 | Along the loop, totals stay equal to slot sums, and the counts grow by exactly the number of tracked particles |
| Summary.SummaryFromEmpty | event_stoneversion.py:59-615 | The summary of an entry is consistent, and its counts add up to the number of particles with a non-negative track id |
| Summary.Tracked | event_stoneversion.py:379-381 | Keeps only particles of the list, and only those with a non-negative track id |
| Summary.UntrackedIgnored | event_stoneversion.py:379-381 | Particles with a negative track id change nothing: the summary equals that of the tracked particles alone |
| Reorder.Insert | event.py:776-788 | Insertion adds exactly one element and keeps the multiset otherwise |
| Reorder.SortByTime | event.py:776-788 | The sorted list still has a time component in every point |
| Reorder.ReorderByTime | event.py:776-788 | IndexError iff some point has fewer than four components; otherwise the sorted list |
| Reorder.InsertSorted | event.py:788 | Insertion keeps a list sorted by time |
| Reorder.InsertStable | event.py:788 | Insertion puts x after the elements of its own time and changes nothing else among them |
| Reorder.InsertStableStep | event.py:788 | The inductive step of InsertStable when x moves past a later element |
| Reorder.SortSorted | event.py:788 | The result is ordered by time |
| Reorder.SortPermutes | event.py:788 | The result is a permutation of the input |
| Reorder.SortStable | event.py:788 | Points of equal time keep their relative order, as Python's sort guarantees |
| Reorder.ReorderByTimeCorrect | event.py:776-788 | With all points timed, the result is sorted, a permutation of the input, and stable |
| Cursor.NextEntry | event_stoneversion.py:702-707 | The next entry is (cur + 1) mod nEntry, always in range |
| Cursor.PrevEntry | event_stoneversion.py:710-715 | The previous entry is (cur - 1) mod nEntry, always in range |
| Cursor.NextPrevInverse | event_stoneversion.py:702-715 | Prev undoes Next and Next undoes Prev |
| Cursor.CursorWraps | event_stoneversion.py:702-715 | Next wraps from the last entry to the first and Prev from the first to the last; one entry stays put |
| Events.FirstOutOfRange | event_stoneversion.py:379-385 | FillEnergyInfo gets as far as the first particle whose track id is past the last track (IndexError). All before it are in range, and it is the whole list iff all are |
| Events.RootNeutrons | event.py:974-984 | Exactly the primary tracks with PDG 2112, in ascending order |
| Events.UnlinkedTracks | event_stoneversion.py:181-205 | Every track starts empty, without daughters and as its own ancestor |
| Events.Event.constructor | event_stoneversion.py:11-17 | The cursor starts at entry 0, and no entry's tracks have been read yet |
| Events.Event.ReadVertex | event_stoneversion.py:138-146 | A GENIE entry with exactly one primary sets the vertex. Otherwise the vertex read before stays |
| Events.Event.ReadTracks | event_stoneversion.py:179-214 | The two loops and the parent walk leave exactly Linked: daughters in index order, ancestor = root |
| Events.Event.ReadEnergyDepo | event_stoneversion.py:217-303 | Each track ends with its own deposits credited up to the first Birks failure. ok iff there was none |
| Events.Event.GetDepoWithDescendants | event_stoneversion.py:718-784 | The recursive method with its loop over daughters returns SubtreeSum, and SubtreeSumIsFlat equates that with the subtree's flat sum |
| Events.Event.FillEnergyInfo | event_stoneversion.py:374-615 | The summary is Summarize over the particles up to the first out-of-range track id. ok iff there was none |
| Events.Event.SelectNeutronEvent | event.py:974-989 | Once an entry's tracks are read (before that the source has no track list and raises AttributeError), returns the number of primary neutrons |
| Events.Event.Jump | event_stoneversion.py:48-113 | Reads the entry, links and credits its tracks. ok iff the deposits, the vertex, the reaction string and the track ids all pass. Then the summary is Summarize from a fresh summary with that cross section and reaction code |
| Events.Event.Next | event_stoneversion.py:702-707 | The cursor moves to NextEntry, and everything Jump promises holds for that entry: the vertex rule, linked and credited tracks, what ok means and, when ok, the summary |
| Events.Event.Prev | event_stoneversion.py:710-715 | The cursor moves to PrevEntry, and everything Jump promises holds for that entry: the vertex rule, linked and credited tracks, what ok means and, when ok, the summary |
| Events.LinkSkipRoot | event_stoneversion.py:208-210 | A primary track is skipped and the linking moves on |
| Events.LinkAppend | event_stoneversion.py:211 | Appending a non-primary track to its parent's daughters keeps every daughter list exact |
| Events.LinkDone | event_stoneversion.py:212-214 | Once the walk sets the root as ancestor, the first i+1 tracks are linked |
| Events.FoldStep | event_stoneversion.py:722-723 | The fold over the first k+1 daughters is the fold over the first k plus daughter k's subtree |

## Left out

- ROOT and file I/O are not modelled. This covers `ReadTree`, `GetEntry`, `ReadGenie`, `ReadMarley`, the file-name parsing, `GetFileName` and the `nu_pdg`/`E_nu` keys they fill. An entry's primaries, trajectories and deposits are given as values (`EventRecord`).
- Events.Event.ReadVertex: models the GENIE branch only. The Marley branch takes `primaries[0]` unconditionally.
- The Modified Box charge is an input field of each deposit, because it needs `np.log`. It is not computed.
- The model assumes every Modified Box charge is a real number. For a zero-energy deposit of positive length the source computes 0/0 in numpy float64, which gives NaN, not an exception. That NaN fails both threshold tests, turns the track's Modified Box total and light into NaN, and spreads through the ancestor folds and the summary's Modified Box totals. None of that is representable over `real`.
- The light sampling is not modelled: `random.gauss` around the mean photoelectron count, with `math.sqrt`. Each deposit carries its sampled deviation from the mean as an input. The `math.sqrt` domain error for a negative mean is not modelled.
- Float rounding and non-associativity: every quantity is `real`.
- Ids are assumed in range. Every parent id is -1 or a track index, and every deposit's first contributor is a track index (`WellFormed`). Python would wrap a negative index or raise IndexError on an out-of-range one. Particle track ids are not assumed in range: one past the last track is modelled as IndexError.
- Cyclic parent links are assumed absent (`Acyclic`). With a cycle the source's ancestor walk and its descendant folds never end.
- Events.Event.Jump: when the vertex is missing or the reaction string fails to decode, `info` keeps its previous value in the model. Python has by then already replaced it with a partly filled dictionary.
- Events.Event.GetDepoWithDescendants: one method stands for the five `Get*DepoWithDesendents` folds, each of which is one component of its result. The source recomputes the fold of a daughter once per component; the result is the same.
- Printing, plotting (plotter.py), ROOT output (writer.py) and fitting (guassian_fit.py) are not modelled. Neither are the test drivers, the direction reconstruction functions, `loopover` and the functions built on it, nor `PrintTracks`. These are diagnostics, floating-point geometry, or code that does not run.
- `int()` is modelled for optional ASCII whitespace, an optional sign and ASCII digits. Underscores and non-ASCII digits and spaces are not accepted.
