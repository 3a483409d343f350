# A verified model of the audio, clock, power and recorder core

The firmware in this repository runs on a small audio and sensor processor. This project models
five parts of it, in Dafny, and proves what they are there for:

- **Reference counting** (`PowerDomains`, `ClockTree`, `ClockRuns`, `ClockDriver`). Power domains vote on all their masters
  on every call, over a graph with diamonds; clocks vote on their parent on the first enable
  only, and can be given another parent while in use. Both recurse over a graph and break their
  counting rules in the middle. Ranks stand for acyclicity. `ClockTree` is about one kind of
  counter. In hardware a PLL is switched by prepare alone and a gate by enable alone, so
  `ClockRuns` keeps one history for both kinds, in the order of the driver and with the two writes
  of a set/clear multiplexer apart, and says of every moment which clocks in use have a signal.
- **Rates** (`ClockRates`, with `Rounding` and `Words`). The fractional PLL and the linear
  divider round up, down and up again in 32 bits, and put the result into fields of registers.
- **The software mixer** (`MixerWakeup`, `MixerSum`, `MixerPaths`). A thread sleeps until every
  started path has data; writers, a second lock and a one-slot queue wake it. `MixerWakeup` is a
  state machine over every interleaving, with a scan of the paths taking one step for each path.
  Of the same machine `MixerMoves` says what moves each flag and byte, `MixerRounds` what a round
  takes, and `MixerProgress` that no thread is kept waiting for good. `MixerSum` is one round of
  mixing over bytes, and `MixerPaths` the matrix of paths that attaching and detaching maintain.
- **Three rings** (`ElasticRing`, `IpiRegion`, `FullRing`, over `Circular`). A resizing FIFO
  with a gap, a region of whole cache lines between two processors, and a ring that uses its
  whole memory and follows the indices of a mirror.
- **The flight recorder** (`FlightRecorder`). An overwriting ring of events whose times are
  differences, read back from the end.

A class holds what the source updates in place; its methods are proved to compute functions of
the old state, and lemmas say what those functions mean. `Bags` counts occurrences in lists.

## What the code does not do

Where a property that the code seems to be meant for does not hold, the exact condition under
which it does is proved:

- A power domain released by somebody who holds no vote is refused only if its counter is below
  two (`PowerDomains.FirstBadRelease`, `PowerDomains.UnheldRelease`). A clock released that way is
  refused only at zero, and is gated under clocks in use exactly if it was the last count
  (`ClockTree.ReleaseOrderedIff`, `ClockRuns.UnheldGates`).
- Enabling does not prepare. A clock that is enabled while nobody has prepared it is open under a
  PLL that is off (`ClockRuns.EnableAlone`; exactly when: `ClockRuns.CallSafeIff`, and over whole
  runs `ClockRuns.RunKeeps`). Callers that hold a prepare vote on what they enable are safe
  (`ClockRuns.BackedKeepsOrder`). Power domains enable their clocks without preparing them, and
  enabling the clock of a group does so with its members (`ClockRuns.PreparedIff`).
- A multiplexer that is cleared in one write and set in the next selects its first candidate
  parent in between. When that has no signal, neither has a clock in use for a moment
  (`ClockRuns.ClearingGates`; exactly when: `ClockRuns.ClearRunsIff`).
- The 8-bit clock counters are counters exactly up to 127 (`ClockDriver.Counters.AcquireNolock`;
  a run that fills one: `ClockDriver.FullCounter`).
- A PLL request below fmin/16 leaves the search loop with shift 5 beside post divider 16 and
  gets about twice the rate (`ClockRates.RoundBound`). As a rate is rounded twice on its way to
  the registers, that also happens to a request whose rounded rate falls below the limit
  (`ClockRates.TwiceTheRate`; exactly when: `ClockRates.RoundTwiceIff`).
- A flag register that is the multiplier's own register brings the old multiplier back
  (`ClockRates.PllRegisters.SetRateRegs`). The sum in the divider wraps
  (`ClockRates.CalcDivIsWanted`, `ClockRates.WrongDivider`).
- A target found ready may still be mixed with an underflow, when a source that chose direct
  mode while it was alone writes late (`MixerWakeup.LateDirectWriteUnderflows`; exactly when:
  `MixerWakeup.ReadyMixUnderflowsIff`).
- Publishing the read index of a full-capacity ring leaves the count of the mirror. Bytes that
  were taken are then added once more when nothing new arrives (`FullRing.PhantomBytes`; exactly
  when: `FullRing.FullRing.SyncWriteIdx`).
- The number of links of a power domain is not checked against the ten entries for them;
  `PowerDomains.Provider.AddProvider` requires them to fit.
- A full ring that the other side read completely is not noticed, as its indices agree again
  (`FullRing.FullRing.SyncReadIdx`), and after an overflow the ring counts its free space
  (`FullRing.FullRing.UpdateWritePtr`).

## Model

| member | source | states |
|---|---|---|
| `PowerDomains.RunKeeps` | drivers/clk/v1/mtk_pd.c:594-771 | in every run whose users release only what they hold, over any acyclic master graph, no call is refused, every counter is its own votes plus its slaves' counters at the end, and no domain was ever powered while a master was off, at any single write |
| `PowerDomains.RunsAgree` | drivers/clk/v1/mtk_pd.c:594-771 | two runs that leave the same votes outstanding leave the same counters and rails, whatever happened in between |
| `PowerDomains.FirstBadRelease` | drivers/clk/v1/mtk_pd.c:695-721 | the first release of a vote that is not held goes through exactly when the counter is two or more, so two votes of others hide it; when it is refused no rail has changed |
| `PowerDomains.UnheldRelease` | drivers/clk/v1/mtk_pd.c:695-721 | a run in which it goes through: two domains under a third are enabled, and the third is released by somebody who holds no vote on it |
| `PowerDomains.EnableKeeps` | drivers/clk/v1/mtk_pd.c:613-653 | enabling adds one user vote on the domain and keeps conservation, the counters and every rail state on the way |
| `PowerDomains.EnableAllKeeps` | drivers/clk/v1/mtk_pd.c:613-621 | voting on a list of masters adds one vote on each, counted with repetition, and leaves them all on |
| `PowerDomains.RaiseKeeps` | drivers/clk/v1/mtk_pd.c:623-653 | the step after the master votes turns one vote on each master into one on the domain, with all rail states ordered |
| `PowerDomains.RaiseFollows` | drivers/clk/v1/mtk_pd.c:623-653 | on the first count that step writes clock and then power, else nothing |
| `PowerDomains.DisableKeeps` | drivers/clk/v1/mtk_pd.c:676-771 | disabling succeeds if and only if the caller holds a vote or the counter is two or more; success takes off one vote and keeps conservation and order; a refusal changes no rail |
| `PowerDomains.LowerKeeps` | drivers/clk/v1/mtk_pd.c:703-753 | when the counter falls to zero the slave check fires exactly if the caller held no vote; otherwise the votes move to the masters and the order is kept |
| `PowerDomains.DisableMasters` | drivers/clk/v1/mtk_pd.c:755-763 | no master refuses a vote that the domain had on it, so neither error is reached in the middle of the recursion |
| `PowerDomains.DisableAllKeeps` | drivers/clk/v1/mtk_pd.c:755-763 | taking back the votes on a list of masters succeeds and takes one vote off each, counted with repetition |
| `PowerDomains.DisableAllStops` | drivers/clk/v1/mtk_pd.c:756-763 | the loop over the masters stops at the first refusal |
| `PowerDomains.NoneHeld` | drivers/clk/v1/mtk_pd.c:695-701 | a counter at zero means that no vote is held, so the "already off" error means an unheld release |
| `PowerDomains.EnableThenDisable` | drivers/clk/v1/mtk_pd.c:594-771 | enabling and then disabling a domain succeeds and restores every counter and rail |
| `PowerDomains.VotesDetermine` | drivers/clk/v1/mtk_pd.c:594-771 | the outstanding votes alone determine all counters and rails |
| `PowerDomains.PoweredIffNeeded` | drivers/clk/v1/mtk_pd.c:594-771 | a domain has power if and only if it, or a domain depending on it over some chain of links, is voted for |
| `PowerDomains.RunPaces` | drivers/clk/v1/mtk_pd.c:594-771 | in every run, held or not, accepted or refused, each hardware state follows from the one before by one write to one domain: from off to clock on, from there to power on, and back the same way; after accepted calls a domain has power exactly while it is counted |
| `PowerDomains.EnableFollows` | drivers/clk/v1/mtk_pd.c:594-660 | enabling goes from state to state by such writes: the main clock of each domain comes on before its power |
| `PowerDomains.DisableFollows` | drivers/clk/v1/mtk_pd.c:676-771 | so does disabling, accepted or refused: the power goes before the main clock |
| `PowerDomains.InListOrder` | drivers/clk/v1/mtk_pd.c:613-763 | masters are enabled in the order of their list and disabled in that order, which ends at the first refusal |
| `PowerDomains.WriteKeepsOrder` | drivers/clk/v1/mtk_pd.c:360-465 | a single rail write keeps the order when the masters of a domain gaining power are on and no slave of one losing it is |
| `PowerDomains.PowerUpOrdered` | drivers/clk/v1/mtk_pd.c:628-653 | both writes of a power-up, clock and then power, are ordered |
| `PowerDomains.TablesMirror` | drivers/clk/v1/mtk_pd.c:868-878 | x is a master of d exactly as often as d is a slave of x |
| `PowerDomains.TablesInOrder` | drivers/clk/v1/mtk_pd.c:868-878 | a link adds its origin to the masters of its sub and its sub to the slaves of its origin, behind those of the links before it, and nothing else |
| `PowerDomains.TablesValid` | drivers/clk/v1/mtk_pd.c:858-883 | the tables built from links that go up in rank are in range, mirror each other and are acyclic |
| `PowerDomains.Provider.AddProvider` | drivers/clk/v1/mtk_pd.c:837-889 | too many domains are refused without a change; otherwise both tables are the links filtered in order, every store stays within the ten entries that a domain has for links of a kind, and all counters and rails start at nothing |
| `PowerDomains.Provider.EnableNolock` | drivers/clk/v1/mtk_pd.c:594-660 | the recursive enable over the tables in memory is the enable of the lemmas, with every rail write, clock before power, in the same order |
| `PowerDomains.Provider.DisableNolock` | drivers/clk/v1/mtk_pd.c:675-771 | the recursive disable likewise, with its result: 0, or the step error exactly where that refuses |
| `PowerDomains.Provider.DisableMasters` | drivers/clk/v1/mtk_pd.c:755-763 | the loop over the masters likewise |
| `PowerDomains.Provider.AnySlaveOn` | drivers/clk/v1/mtk_pd.c:707-721 | the loop over the slaves finds exactly whether some slave is counted |
| `ClockRuns.RunKeeps` | drivers/clk/v1/mtk_clk.c:360-693 | in every run of prepare, enable, their inverses and set_parent that gives back only held votes, both kinds of counters equal user votes plus the number of counted clocks whose present parent, stand-in or group member they are; and at every hardware step, through both kinds of calls and every write of a multiplexer, every clock in use had its signal through running PLLs and open gates, if and only if at each call the outstanding votes fed every PLL in use and clearing a multiplexer was safe |
| `ClockRuns.RunsAgree` | drivers/clk/v1/mtk_clk.c:360-693 | runs that end with the same parents selected and the same votes of one kind end with the same counters of that kind and the same clocks prepared, or on |
| `ClockRuns.StepKeeps` | drivers/clk/v1/mtk_clk.c:360-693 | each single call moves exactly the caller's vote and keeps all of that in both kinds of counters; the hardware stays in order if and only if the call is safe |
| `ClockTree.AcquireKeeps` | drivers/clk/v1/mtk_clk.c:360-402 | enabling (or preparing) adds one vote, wakes what is needed first, keeps every state of that kind on the way ordered (nothing switched on before what it needs) and leaves the clock on |
| `ClockTree.AcquireWakes` | drivers/clk/v1/mtk_clk.c:371-399 | the same on the transition from 0 to 1, which votes once on the parent, the stand-in and the group |
| `ClockTree.AcquireCounts` | drivers/clk/v1/mtk_clk.c:371-375 | the same while the counter is off zero, where nothing else moves |
| `ClockTree.FirstUse` | drivers/clk/v1/mtk_clk.c:371-402 | the first use of a clock acquires its parent, then its stand-in or, when enabling, its group, and only then switches the clock itself |
| `ClockTree.LastUse` | drivers/clk/v1/mtk_clk.c:437-463 | the last use ends the other way round: the clock itself is switched off, then the stand-in or the group is released, and last the parent |
| `ClockTree.ReleaseKeeps` | drivers/clk/v1/mtk_clk.c:420-463 | giving back a held vote takes it off and keeps that order at every step |
| `ClockTree.ReleaseAllKeeps` | drivers/clk/v1/mtk_clk.c:443-460 | so does returning the votes on everything the clock needed |
| `ClockTree.HeldIsAccepted` | drivers/clk/v1/mtk_clk.c:420-463 | a held vote is never refused, nor any vote returned along the way |
| `ClockTree.ReleaseOrderedIff` | drivers/clk/v1/mtk_clk.c:420-463 | a release never looks at the clocks that still need this one: that order is kept if and only if the clock is always on, the vote was held, or the counter is not one |
| `ClockTree.SwitchOffBreaks` | drivers/clk/v1/mtk_clk.c:437-443 | switching off a clock on the last count without holding a vote gates it under a clock in use |
| `ClockRuns.SetParentKeeps` | drivers/clk/v1/mtk_clk.c:628-693 | set_parent keeps votes in both kinds of counters, and the hardware in order through its votes, writes and returns if and only if, read off the state before, the votes feed every PLL in use while both parents are voted for and afterwards, and clearing the field is safe; it succeeds exactly for a multiplexer and one of its candidate parents, which is then selected, and else answers -22 without a change |
| `ClockRuns.SetParentAnswers` | drivers/clk/v1/mtk_clk.c:628-693 | set_parent answers 0 exactly for a multiplexer and one of its candidate parents, also the one selected already, and -22 otherwise; what is selected already, or was refused, changes nothing, and else just this multiplexer turns to the first position of the parent |
| `ClockTree.SwitchoverKeeps` | drivers/clk/v1/mtk_clk.c:666-686 | moving a clock in use to another parent keeps all votes for either kind of counter, and every step of that kind in order |
| `ClockTree.TurnConserves` | drivers/clk/v1/mtk_clk.c:673-679 | turning the multiplexer of a counted clock moves exactly its vote from the former parent to the new one |
| `ClockTree.TurnKeeps` | drivers/clk/v1/mtk_clk.c:673-679 | the write that sets the multiplexer may come once the new parent is live |
| `ClockTree.VoteKeeps` | drivers/clk/v1/mtk_clk.c:670-679 | before the turn the new parent is voted for, and after it the former one still is, with all votes conserved |
| `ClockTree.AcquirePasses` | drivers/clk/v1/mtk_clk.c:360-402 | a call that prepares or enables only switches on, one that undoes it only off, and its last step shows what it leaves |
| `ClockTree.ReleasePasses` | drivers/clk/v1/mtk_clk.c:420-463 | the same of giving back |
| `ClockTree.VoteWakes` | drivers/clk/v1/mtk_clk.c:670-674 | what is on once the new parent is voted for, said of the state before: what was, and what the new parent depends on |
| `ClockRuns.ClearRunsIff` | drivers/clk/v1/mtk_clk.c:1133-1138 | between the write that clears the field and the one that sets it the first candidate parent is selected: the hardware is in order if and only if the clock is not in use or that parent has its signal through running PLLs and open gates, and likewise for its PLLs when the clock is prepared |
| `ClockTree.LiveOnceVoted` | drivers/clk/v1/mtk_clk.c:371-399 | a vote for a clock makes live exactly what it depends on over some chain, besides what was live |
| `ClockRuns.ClearingGates` | drivers/clk/v1/mtk_clk.c:1133-1138 | a run in which a clock in use moves between two parents and has no signal at the clearing write, because its first candidate parent is gated |
| `ClockRuns.RunningIffFed` | drivers/clk/v1/mtk_clk.c:974-995 | as PLLs are switched by prepare alone and gates by enable alone, two channels in order make hardware in order if and only if every enabled PLL is prepared |
| `ClockRuns.NoneShutAbove` | drivers/clk/v1/mtk_clk.c:974-995 | then no gate in use is open under a PLL that is off or a gate that is shut, over any chain of parents and stand-ins |
| `ClockRuns.FlowsIff` | drivers/clk/v1/mtk_clk.c:360-402 | a signal gets to a clock exactly if no op on any chain of parents and stand-ins above it keeps it back, where a clock with a stand-in has no op of its own |
| `ClockRuns.FedIffVotes` | drivers/clk/v1/mtk_clk.c:360-582 | every enabled PLL is prepared if and only if every PLL that an enable vote depends on is one that a prepare vote depends on |
| `ClockRuns.PreparedIff` | drivers/clk/v1/mtk_clk.c:1623-1656 | enabled clocks are prepared if and only if those are that somebody enables, and the members of enabled groups, which enabling a group does not prepare |
| `ClockRuns.CallSafeIff` | drivers/clk/v1/mtk_clk.c:360-582 | preparing and disabling are always safe; enabling is if and only if every PLL that the clock depends on is prepared; unpreparing if and only if the prepare votes left hold every PLL in use |
| `ClockRuns.CallKeeps` | drivers/clk/v1/mtk_clk.c:360-582 | each of these calls moves one vote and keeps the hardware in order if and only if it is safe |
| `ClockRuns.BorrowKeeps` | drivers/clk/v1/mtk_clk.c:670-674 | voting for the new parent, preparing first and enabling then, keeps the hardware in order if and only if every enabled PLL is prepared in the end |
| `ClockRuns.TurnInOrder` | drivers/clk/v1/mtk_clk.c:676 | the turn keeps it if and only if clearing the field is safe |
| `ClockRuns.RestoreInOrder` | drivers/clk/v1/mtk_clk.c:681-686 | giving back the former parent, disabling first and unpreparing then, keeps it if and only if every PLL still enabled is still prepared in the end |
| `ClockRuns.BackedIsSafe` | drivers/clk/v1/mtk_clk.c:666-686 | when whoever enables a clock also holds a prepare vote on it, every call is safe in the tables of the next row, changing a parent in use included: the new parent is prepared before it is enabled |
| `ClockRuns.BackedKeepsOrder` | drivers/clk/v1/mtk_clk.c:360-693 | so with such callers every clock in use has its signal at every hardware step of every run, for tables without groups whose two-write multiplexers have a free-running clock, or none, first |
| `ClockRuns.EnableAlone` | drivers/clk/v1/mtk_clk.c:360-402 | a run without such a vote: enabling a gate by itself opens it under a PLL that is off; preparing it first is in order |
| `ClockRuns.UnheldGates` | drivers/clk/v1/mtk_clk.c:420-463 | a run in which a release that is not held is accepted and gates a clock under one in use |
| `ClockTree.VoteThenTurn` | drivers/clk/v1/mtk_clk.c:670-679 | the new parent is voted for before the turn, which is what makes it live |
| `ClockTree.LetGo` | drivers/clk/v1/mtk_clk.c:681-686 | the vote on the former parent is given back after the turn and keeps everything |
| `ClockTree.ThereAndBack` | drivers/clk/v1/mtk_clk.c:628-693 | moving a clock to another parent and back restores every counter and every switch |
| `ClockTree.AcquireThenRelease` | drivers/clk/v1/mtk_clk.c:360-463 | enabling a clock and disabling it again restores every counter and switch in the tree |
| `ClockTree.VotesDetermine` | drivers/clk/v1/mtk_clk.c:360-582 | with the same parents selected, the votes alone determine all counters and switches |
| `ClockTree.OnIffWanted` | drivers/clk/v1/mtk_clk.c:360-463 | a clock is on if and only if it, or a clock needing it over some chain of present parents and stand-ins, is voted for |
| `ClockDriver.Counters.AcquireNolock` | drivers/clk/v1/mtk_clk.c:360-402 | with 8-bit counters the recursive enable and prepare do what the lemmas say if and only if no counter has to pass 127 |
| `ClockDriver.Counters.AcquireNeeds` | drivers/clk/v1/mtk_clk.c:377-394 | so does the loop over what the clock needs |
| `ClockDriver.Counters.ReleaseNolock` | drivers/clk/v1/mtk_clk.c:420-463 | the recursive disable and unprepare are the release of the lemmas, and report an error exactly for a vote that is not accepted |
| `ClockDriver.Counters.ReleaseReturns` | drivers/clk/v1/mtk_clk.c:443-460 | the returns are all made; only the answer of the stand-in is reported |
| `ClockDriver.RefusedIff` | drivers/clk/v1/mtk_clk.c:420-463 | a release is refused exactly if some counter along the chain of stand-ins is at zero behind nothing but last votes |
| `ClockDriver.Driver.SetParentNolock` | drivers/clk/v1/mtk_clk.c:628-693 | the whole set_parent, branch by branch: 0 exactly for a multiplexer and one of its candidate parents, else -22, and no change where that is selected already; selection and result are always those of the lemmas, and so are all counters, switches and the one history of hardware steps in its order, prepare before enable and disable before unprepare, as long as no vote has to take a counter past 127 |
| `ClockDriver.Driver.VoteBoth` | drivers/clk/v1/mtk_clk.c:670-674 | the new parent is prepared first and enabled then, each if the clock is counted so |
| `ClockDriver.Driver.TurnTo` | drivers/clk/v1/mtk_clk.c:1083-1146 | the set_parent op: one write, or a clearing one and a setting one |
| `ClockDriver.Driver.Acquire` | drivers/clk/v1/mtk_clk.c:360-418 | clk_prepare and clk_enable are the step of the lemmas as long as no counter has to pass 127 |
| `ClockDriver.Driver.Release` | drivers/clk/v1/mtk_clk.c:420-478 | so are clk_unprepare and clk_disable, always, with their result |
| `ClockDriver.FullCounter` | drivers/clk/v1/mtk_clk.c:371 | a run that fills a counter: the 128th user makes it -128 |
| `ClockRates.RoundBound` | drivers/clk/v1/mtk_clk.c:1488-1498 | a request f of at least fmin/16 is rounded to r with r <= f and f - r less than fin / (2^k * postdiv); one below falls through the loop and gets up to 2f, and not less than that by as much |
| `ClockRates.RoundsDownIff` | drivers/clk/v1/mtk_clk.c:1430-1456 | if one step of the multiplier is no more than the request, the rounded rate stays within the request if and only if 16 times the request reaches fmin |
| `ClockRates.RoundPllAgain` | drivers/clk/v1/mtk_clk.c:1430-1456 | asking again for the rounded rate gives the same rate whenever 16 times it reaches fmin; the same multiplier and post divider if and only if the rounded rate times the post divider reaches fmin |
| `ClockRates.RateAgain` | drivers/clk/v1/mtk_clk.c:1334-1358 | in whole numbers: the rounded rate is a fixed point for the same post divider and for every larger power-of-two multiple of it |
| `ClockRates.RateBound` | drivers/clk/v1/mtk_clk.c:1334-1358 | in whole numbers: both roundings up together never pass the target, nor fall short of it by a step |
| `ClockRates.RoundExact` | drivers/clk/v1/mtk_clk.c:1334-1358 | under the limits nothing wraps in 32 bits: rounding is the exact product rounded up twice |
| `ClockRates.ValuesExact` | drivers/clk/v1/mtk_clk.c:1450-1455 | under the limits the multiplier is the exact quotient and fits its field |
| `ClockRates.WantedFits` | drivers/clk/v1/mtk_clk.c:1443-1448 | the loop lifts the request to less than twice fmin, so limits on fmin and fmax keep sums in 32 bits |
| `ClockRates.ServedShift` | drivers/clk/v1/mtk_clk.c:1444-1448 | the loop finds a post divider if and only if 16 times the request reaches fmin; otherwise it leaves shift 5 beside post divider 16 |
| `ClockRates.CalcValues` | drivers/clk/v1/mtk_clk.c:1430-1456 | the loop with its break computes the first shift that reaches fmin, the last divider tried, and the multiplier |
| `ClockRates.ValuesAre` | drivers/clk/v1/mtk_clk.c:1430-1456 | in plain numbers: the post divider is the least power of two up to 16 that lifts the request, cut off at fmax, to fmin (1 GHz by default), and the multiplier the quotient rounded down; if not even 16 does, the post divider is 16 and the multiplier that of 32 |
| `ClockRates.PllRegisters.SetRateRegs` | drivers/clk/v1/mtk_clk.c:1360-1419 | both fields read back what was written, in one register or two; bit 31 of the flag register is set; every other bit stays; post divider, multiplier and flag are written in that order. When the flag has a register of its own that is the multiplier's, all its bits but the flag are written back as they were: the old multiplier stays |
| `ClockRates.PllRegisters.SetRate` | drivers/clk/v1/mtk_clk.c:1500-1521 | 0 is refused without a change; else the registers then hold multiplier and post divider of the request and give exactly the rounded rate (same exception), the change flag is raised, and no other bit changes |
| `ClockRates.PllRegisters.RecalcRate` | drivers/clk/v1/mtk_clk.c:1458-1486 | reads back the smallest rate r with parent * pcw <= r * postdiv * 2^k for the two fields, so that the two roundings up amount to one; 0 when the sum in the last division wraps |
| `ClockRates.RecalcIsSmallest` | drivers/clk/v1/mtk_clk.c:1334-1358 | the same of the computation alone, for any multiplier and post divider |
| `ClockRates.PllRegisters.RoundRate` | drivers/clk/v1/mtk_clk.c:1488-1498 | rounding a request computes the promised rate without touching a register |
| `ClockRates.PllRegisters.ClkSetRate` | drivers/clk/v1/mtk_clk.c:298-324 | a rate that the registers already give changes nothing; else a promise of 0 is refused, and the registers end with the promised rate if and only if 16 times that reaches fmin (promises above fmax end with what fmax is rounded to); whatever is set raises the change flag |
| `ClockRates.RoundTwiceIff` | drivers/clk/v1/mtk_clk.c:298-324 | rounding twice is rounding once if and only if 16 times the rounded rate reaches fmin or it is 0, and otherwise gives more; a rate rounded to more than fmax, which only a request below fmin/16 is, becomes what fmax is rounded to |
| `ClockRates.TwiceTheRate` | drivers/clk/v1/mtk_clk.c:1430-1456 | an input where it fails: 62.5 MHz from 26 MHz with 22 bits is promised as 62499966 Hz and set as 124999932 Hz |
| `ClockRates.CalcDivIsWanted` | drivers/clk/v1/mtk_clk.c:1538-1554 | the divider computed in 32 bits is the wanted one if and only if the sum with the parent's rate does not wrap or the request is not below the parent's rate; so the cut at ULONG_MAX never matters |
| `ClockRates.WrongDivider` | drivers/clk/v1/mtk_clk.c:1538-1554 | an input where it is not: 1900 MHz asked of 2496 MHz gets divider 1 in place of 2 |
| `ClockRates.WantedIsSmallest` | drivers/clk/v1/mtk_clk.c:1538-1554 | the wanted divider is the smallest whose rounded-up rate does not exceed the request; when cut off, none in the field comes closer |
| `ClockRates.RoundDivAgain` | drivers/clk/v1/mtk_clk.c:1576-1583 | for every request: unless the divider picked makes its own sum wrap, which gives 0 for good, rounding a rounded rate changes nothing if and only if its sum with the parent's rate does not wrap or the clock is not divided; the divider shrinks only where it had been cut off |
| `ClockRates.WantedAgain` | drivers/clk/v1/mtk_clk.c:1576-1583 | the same for the wanted divider: same rate, no larger divider, the same divider unless cut off |
| `ClockRates.DivRegister.SetRate` | drivers/clk/v1/mtk_clk.c:1585-1608 | 0 is refused; else one less than the divider goes into its field, the wanted one exactly if the sum does not wrap or the clock is not divided; reading back gives the rounded rate, and no other bit changes |
| `ClockRates.DivRegister.ClkSetRate` | drivers/clk/v1/mtk_clk.c:298-324 | setting a divider's rate from outside, rounded twice: unless the register gives the request already, it ends with the promised rate if and only if the sum of that with the parent's rate does not wrap or the clock is not divided; a promise of 0 is refused and no other bit changes |
| `ClockRates.DivRegister.RecalcRate` | drivers/clk/v1/mtk_clk.c:1556-1574 | reads back the smallest rate r with parent <= r * divider; 0 when the sum wraps |
| `ClockRates.DivRateIs` | drivers/clk/v1/mtk_clk.c:1556-1574 | the division in 32 bits rounds up exactly if the sum does not wrap, and gives 0 otherwise |
| `Words.FieldRoundTrip` | drivers/clk/v1/mtk_clk.c:1383-1394 | masking out a field and or-ing in a number leaves exactly that number there and all other bits as they were |
| `Words.FieldBits` | drivers/clk/v1/mtk_clk.c:1383-1394 | bit by bit: in its place in the field stands each bit of the number |
| `Words.NumberOfBits` | drivers/clk/v1/mtk_clk.c:1477-1483 | a number that fits is what its bits are read back as |
| `MixerWakeup.NoLostWakeUp` | drivers/audio/framework/audio_sw_mixer.c:815-933 | in every interleaving, if the mixing thread is blocked and every started path (one at least) has enough data, a token is in the queue or a thread that published its flags has yet to run its own signal; without the waiting flag there is a token |
| `MixerWakeup.UntimedSleepEnds` | drivers/audio/framework/audio_sw_mixer.c:880-915 | the sleep without timeout of direct mode ends when the mode is left or the target goes away, at whatever point of another thread's work that is raised, and is never over data ready to mix |
| `MixerWakeup.FlagsTellTheTruth` | drivers/audio/framework/audio_sw_mixer.c:1316-1353 | in every interleaving data_enough holds exactly if one target buffer is queued, no queue passes 8 target buffers and one converted write, and underflow means not started |
| `MixerWakeup.RunKeeps` | drivers/audio/framework/audio_sw_mixer.c:815-933 | every state of every interleaving of the mixing thread, the writers and the manager satisfies the invariant |
| `MixerWakeup.NextKeeps` | drivers/audio/framework/audio_sw_mixer.c:815-1072 | each single step of each thread keeps it |
| `MixerWakeup.WaitKeeps` | drivers/audio/framework/audio_sw_mixer.c:862-933 | so do the steps of the wait, timed and untimed, with its scan |
| `MixerWakeup.AfterKeeps` | drivers/audio/audio_utility/audio_lock.c:456-535 | so does leaving the timed sleep, by token or timeout, and relocking |
| `MixerWakeup.WakeKeeps` | drivers/audio/audio_utility/audio_lock.c:408-454 | taking the token from the one-slot queue keeps it |
| `MixerWakeup.MixKeeps` | drivers/audio/framework/audio_sw_mixer.c:972-1072 | so do the steps of the mix, path by path |
| `MixerWakeup.ChooseKeeps` | drivers/audio/framework/audio_sw_mixer.c:2156-2250 | so does a writer's choice between direct mode and its queue |
| `MixerWakeup.WriteKeeps` | drivers/audio/framework/audio_sw_mixer.c:1290-1353 | so do the steps by which sync, unsync and dup writers wait, publish data and flags (what each of them does: `MixerMoves.PublishIs`, `MixerMoves.PathMoves`) |
| `MixerWakeup.ProbeKeeps` | drivers/audio/framework/audio_sw_mixer.c:844-859 | so do the steps of a writer's own signal, whose scan runs beside other writers |
| `MixerWakeup.ManagerKeeps` | drivers/audio/framework/audio_sw_mixer.c:1893-1970 | so do attaching and detaching of sources with the signals they send |
| `MixerWakeup.LeaveKeeps` | drivers/audio/framework/audio_sw_mixer.c:2608-2620 | so does taking the target away: exit is raised with no lock held, in the middle of anything, before the manager's lock is taken |
| `MixerWakeup.ReadyMixUnderflowsIff` | drivers/audio/framework/audio_sw_mixer.c:972-997 | a mix begun from the answer "ready" marks a path as underflown if and only if the path was written directly after the scan began and holds less than one buffer; it changes no other path |
| `MixerWakeup.LateDirectWriteUnderflows` | drivers/audio/framework/audio_sw_mixer.c:1642-1700 | that does happen: a trace in which a direct write that comes late lets a ready target's mix mark an underflow |
| `MixerMoves.PublishIs` | drivers/audio/framework/audio_sw_mixer.c:1316-1353 | a writer that gets to its queue is never kept from it: the data is dropped exactly if the queue held more than 8 target buffers; otherwise the queue grows by just that, and the path is started, not underflown and on the way to its signal exactly when a target buffer is queued then |
| `MixerMoves.QueueConserves` | drivers/audio/framework/audio_sw_mixer.c:972-1353 | in every interleaving a path holds exactly the bytes taken from its writer since it was attached, less one target buffer for each time it was mixed |
| `MixerMoves.PathMoves` | drivers/audio/framework/audio_sw_mixer.c:972-1700 | no step of any thread sets or clears start, underflow or data_enough, or moves a byte, but these: a write that fills a buffer or goes to the target directly, a mute write, a mix that takes a buffer or finds none |
| `MixerMoves.TargetMoves` | drivers/audio/framework/audio_sw_mixer.c:815-933 | nor does any set or clear token, waiting flag, direct mode, exit or start of the target but these; a token is sent only by a change of mode, a scan that found the target ready or the end of the target, and only while the thread waits |
| `MixerMoves.VerdictRests` | drivers/audio/framework/audio_sw_mixer.c:815-841 | the mixing thread goes on with the answer "ready" exactly on what it saw, path by path, since its last scan began: one path at least started with enough data, and none started without |
| `MixerMoves.ChoiceIs` | drivers/audio/framework/audio_sw_mixer.c:2195-2225 | a write goes to the target directly exactly if its path is the only one, synchronous and empty |
| `MixerMoves.PrepareIs` | drivers/audio/framework/audio_sw_mixer.c:2226-2241 | any other write starts the target; it keeps to its mode, unless the path underflowed beside others: then a synchronous one becomes unsynchronous |
| `MixerProgress.NoDeadlock` | drivers/audio/framework/audio_sw_mixer.c:815-1137 | in every interleaving some thread can go on with what it has begun, unless every call has returned and the mixing thread has ended or sleeps without a token over a target that is not ready; then, and only then, nothing but a new call or a time-out goes on |
| `MixerProgress.MixLockMoves` | drivers/audio/framework/audio_sw_mixer.c:844-933 | whoever holds the mix lock can go on, or waits, holding it, for a direct write that can |
| `MixerProgress.WriterGoesOn` | drivers/audio/framework/audio_sw_mixer.c:2156-2250 | a write under way can go on, or waits for the mix lock or the direct lock, whose holder can |
| `MixerProgress.ListLockMoves` | drivers/audio/framework/audio_sw_mixer.c:967-1072 | whoever holds the lock of the path list can go on, or waits for a path lock or the mix lock, whose holder can |
| `MixerProgress.RunDirect` | drivers/audio/framework/audio_sw_mixer.c:2210-2212 | the direct lock is held exactly by one path in a direct write |
| `MixerRounds.RoundIs` | drivers/audio/framework/audio_sw_mixer.c:967-1137 | in every interleaving a round looks at every path once the list is locked, and what it writes was made of exactly one buffer of each path that was started and full at its turn, one path at least |
| `MixerRounds.WaitReasons` | drivers/audio/framework/audio_sw_mixer.c:862-933 | the mixing thread gives up a wait only when the target goes away or the time has run out, and sleeps without a time-out exactly in direct mode |
| `MixerRounds.RoundReasons` | drivers/audio/framework/audio_sw_mixer.c:1007-1229 | it ends exactly when the target goes away, mixes exactly when the target was started, and what found nothing to mix waits again |
| `MixerRounds.WritesBegin` | drivers/audio/framework/audio_sw_mixer.c:1276-1290 | a write begins whenever the one before has returned; only a mute write to an underflown synchronous path is passed over |
| `MixerRounds.SourcesComeAndGo` | drivers/audio/framework/audio_sw_mixer.c:1780-1966 | paths come, empty and not started, whenever manager and list are free, and go under the same locks once their writers are away |
| `MixerRounds.WhoStays` | drivers/audio/framework/audio_sw_mixer.c:1930-1958 | the others stay as they are, but for the mode of a path left alone |
| `MixerSum.MixTarget.DoMix` | drivers/audio/framework/audio_sw_mixer.c:936-1105 | each path that joins loses exactly its first buffer, a started path without one is stopped as underflown, no other path changes, and the output of those buffers is written; nothing is written if none joins |
| `MixerSum.MixTarget.Mark` | drivers/audio/framework/audio_sw_mixer.c:972-1007 | the first loop marks exactly the started paths that hold a buffer, counts them and keeps the last |
| `MixerSum.MixTarget.AddAll` | drivers/audio/framework/audio_sw_mixer.c:1040-1072 | the second loop takes a buffer from every marked path and leaves the exact sums in the accumulators |
| `MixerSum.MixTarget.AddBlock` | drivers/audio/framework/audio_sw_mixer.c:1061-1071 | adding one buffer in the width of the accumulator is adding it exactly |
| `MixerSum.MixTarget.LimitAll` | drivers/audio/framework/audio_sw_mixer.c:1076-1105 | the limiter writes every sum, or the limit of the format that it lies beyond: the highest value above it, the lowest below |
| `MixerSum.LimitIsNearest` | drivers/audio/framework/audio_sw_mixer.c:1076-1105 | what is written is the value of the format nearest to the sum, and no other |
| `MixerSum.Rails` | drivers/audio/framework/audio_sw_mixer.c:1076-1105 | the limits are those of a signed number of 16, 24 or 32 bits |
| `MixerSum.MixTarget.Clear` | drivers/audio/framework/audio_sw_mixer.c:1130-1134 | the last loop forgets which paths joined and changes nothing else |
| `MixerSum.OutputIsLimitedSum` | drivers/audio/framework/audio_sw_mixer.c:1040-1105 | with two or more paths each sample written, read back from its bytes, is the mathematical sum of the paths' samples where that lies within the limits of the format, the highest value where it lies above and the lowest where it lies below; one path's buffer is written as it is |
| `MixerSum.OutputOrder` | drivers/audio/framework/audio_sw_mixer.c:1042-1072 | the output depends on which buffers join, not on their order |
| `MixerSum.ShortcutAgrees` | drivers/audio/framework/audio_sw_mixer.c:1013-1031 | writing a single path's buffer as it is equals mixing it alone if and only if its samples lie within the limits, which 16 and 32 bits always do |
| `MixerSum.AccumulateExact` | drivers/audio/framework/audio_sw_mixer.c:1061-1071 | up to 65536 paths of 16-bit samples, or 2^32 of wider ones, never wrap the accumulator |
| `MixerSum.AccumulatorRoom` | drivers/audio/framework/audio_sw_mixer.c:1063-1066 | for 16-bit samples 65536 is exactly the number of paths up to which no samples can wrap it |
| `MixerSum.RenderSamples` | drivers/audio/framework/audio_sw_mixer.c:1033-1038 | the bytes of a buffer are what its samples are written back as |
| `MixerSum.TwosComplement` | drivers/audio/framework/audio_sw_mixer.c:1033-1038 | a sample is its bytes, the lowest first and the highest with a sign |
| `MixerSum.SampleAt` | drivers/audio/framework/audio_sw_mixer.c:1061-1071 | the samples of a buffer lie in it one behind the other |
| `MixerSum.MixedMeans` | drivers/audio/framework/audio_sw_mixer.c:972-1058 | a started path with a whole buffer loses just that and its flag stays as true as it was; a started one without is stopped as underflown and keeps what it has; others stay |
| `MixerSum.BlocksAre` | drivers/audio/framework/audio_sw_mixer.c:1042-1058 | the buffers mixed are the first ones of just the started paths that hold a whole one, in list order |
| `MixerPaths.Manager.AttachSource` | drivers/audio/framework/audio_sw_mixer.c:2003-2103 | a new source gets the next key and one path to every target; all other ends keep key, order, thread and host, and everything that holds of the manager still holds |
| `MixerPaths.Manager.AttachTarget` | drivers/audio/framework/audio_sw_mixer.c:2409-2578 | a new target gets the next key, the first free thread and one path from every source, and is host exactly if it is the first; all other ends keep key, order, thread and host; with no thread free only the key is used up |
| `MixerPaths.Manager.DetachSource` | drivers/audio/framework/audio_sw_mixer.c:2348-2399 | a source goes with all its paths; a target stops exactly if no path is left to it; all other ends keep key, order, thread and host |
| `MixerPaths.Manager.DetachTarget` | drivers/audio/framework/audio_sw_mixer.c:2581-2657 | a target goes with all its paths, and its thread alone becomes free; all other ends keep key, order, thread and host |
| `MixerPaths.Manager.constructor` | drivers/audio/framework/audio_sw_mixer.c:581-648 | an empty manager with two free threads satisfies all of that |
| `MixerPaths.Manager.CreatePath` | drivers/audio/framework/audio_sw_mixer.c:1780-1890 | one path more, between these two ends only, in both lists under the right keys |
| `MixerPaths.Manager.DestroyPath` | drivers/audio/framework/audio_sw_mixer.c:1893-1966 | one path less, found in both lists by the keys of the ends; both searches succeed and find the same path; the target stops exactly if that was its last one, and no other target changes |
| `MixerPaths.Manager.AdmitTarget` | drivers/audio/framework/audio_sw_mixer.c:2529-2564 | taking the thread and entering the target in order keeps lists, threads and the single host |
| `MixerPaths.Manager.FindThread` | drivers/audio/framework/audio_sw_mixer.c:2518-2525 | the thread found is to be had and none before it is, or none is at all |
| `MixerPaths.PathAdded` | drivers/audio/framework/audio_sw_mixer.c:1866-1884 | adding a path to one list of each side keeps all lists exact |
| `MixerPaths.PathRemoved` | drivers/audio/framework/audio_sw_mixer.c:1930-1950 | removing it from both keeps them exact |
| `MixerPaths.PathStandsOnce` | drivers/audio/framework/audio_sw_mixer.c:1866-1884 | each path stands once in one source list and once in one target list, under the key of the other end |
| `MixerPaths.TheEntries` | drivers/audio/framework/audio_sw_mixer.c:1930-1966 | a key finds the one path between two ends in either list |
| `MixerPaths.RowCount` | drivers/audio/framework/audio_sw_mixer.c:1875 | num_path of a source is the number of targets |
| `MixerPaths.ColumnCount` | drivers/audio/framework/audio_sw_mixer.c:1884 | num_path of a target is the number of sources |
| `MixerPaths.ThreadsCount` | drivers/audio/framework/audio_sw_mixer.c:2519-2537 | there are at most two targets, and two exactly when no thread is free |
| `MixerPaths.AddInOrder` | drivers/audio/framework/audio_sw_mixer.c:341-383 | insertion keeps a list in descending order and adds exactly the entry, behind those of its own order |
| `ElasticRing.ElasticRing.DynamicChange` | drivers/audio/audio_utility/audio_ringbuf_pure.c:539-615 | the contents stay, the size is the one of Fit, and w >= 1 bytes then fit with at most 8 times data and w free; where Fit is the present size, memory and pointers stay |
| `ElasticRing.ElasticRing.ChangeSize` | drivers/audio/audio_utility/audio_ringbuf_pure.c:567-577 | the new room, or 0 exactly when the present one will do |
| `ElasticRing.DoubleUntil` | drivers/audio/audio_utility/audio_ringbuf_pure.c:572-573 | the doubling loop ends and computes Grow |
| `ElasticRing.HalveUntil` | drivers/audio/audio_utility/audio_ringbuf_pure.c:576-577 | the halving loop ends and computes Shrink |
| `ElasticRing.Grow` | drivers/audio/audio_utility/audio_ringbuf_pure.c:572-573 | doubling ends with room for data and w, below twice that |
| `ElasticRing.Shrink` | drivers/audio/audio_utility/audio_ringbuf_pure.c:576-577 | halving ends with at most 8 times the need free, never less than the need, and not one step too late |
| `ElasticRing.FitMeetsNeed` | drivers/audio/audio_utility/audio_ringbuf_pure.c:570-577 | after a resize w bytes fit, at most 8 times the need is free, and asking again changes nothing |
| `ElasticRing.FitByTwos` | drivers/audio/audio_utility/audio_ringbuf_pure.c:570-577 | the room is doubled as often as it takes for data and w bytes more, and halved until no more than eight times that is free, and not once more |
| `ElasticRing.ElasticRing.Move` | drivers/audio/audio_utility/audio_ringbuf_pure.c:592-610 | the data is moved unchanged into fresh memory of the new size |
| `ElasticRing.ElasticRing.CopyFromLinear` | drivers/audio/audio_utility/audio_ringbuf_pure.c:200-215 | appends any bytes, never refused |
| `ElasticRing.ElasticRing.CopyFromLinearImpl` | drivers/audio/audio_utility/audio_ringbuf_pure.c:153-197 | appends when they fit and changes nothing otherwise |
| `ElasticRing.ElasticRing.CopyToLinear` | drivers/audio/audio_utility/audio_ringbuf_pure.c:107-150 | hands out and removes the first bytes; more than there are changes nothing |
| `ElasticRing.ElasticRing.DropData` | drivers/audio/audio_utility/audio_ringbuf_pure.c:385-415 | removes the first bytes likewise |
| `ElasticRing.ElasticRing.CopyFromRing` | drivers/audio/audio_utility/audio_ringbuf_pure.c:281-305 | moves the first bytes of one ring to the end of another; more than there are changes nothing |
| `ElasticRing.ElasticRing.CopyFromRingAll` | drivers/audio/audio_utility/audio_ringbuf_pure.c:308-320 | moves everything: the bytes of both together are conserved |
| `ElasticRing.ElasticRing.CopyFromRingImpl` | drivers/audio/audio_utility/audio_ringbuf_pure.c:218-278 | the move without resizing, which changes nothing when data or room is lacking |
| `ElasticRing.ElasticRing.CopyWrapped` | drivers/audio/audio_utility/audio_ringbuf_pure.c:255-276 | its case with data passing the end, in one copy or two |
| `ElasticRing.ElasticRing.WriteValue` | drivers/audio/audio_utility/audio_ringbuf_pure.c:323-369 | appends copies of a value |
| `ElasticRing.ElasticRing.WriteValueImpl` | drivers/audio/audio_utility/audio_ringbuf_pure.c:351-368 | in one fill or two |
| `ElasticRing.ElasticRing.WriteZero` | drivers/audio/audio_utility/audio_ringbuf_pure.c:372-382 | appends zeroes |
| `ElasticRing.ElasticRing.Compensate` | drivers/audio/audio_utility/audio_ringbuf_pure.c:483-497 | puts copies of a value in front of the data |
| `ElasticRing.ElasticRing.CompensateImpl` | drivers/audio/audio_utility/audio_ringbuf_pure.c:430-480 | in every case of how the read pointer passes the base, without resizing; too many change nothing |
| `ElasticRing.ElasticRing.Rollback` | drivers/audio/audio_utility/audio_ringbuf_pure.c:500-536 | steps the read pointer back in every case of how it passes the base; too far changes nothing |
| `ElasticRing.ElasticRing.DataCount` | drivers/audio/audio_utility/audio_ringbuf_pure.c:52-78 | the count is the length of the contents |
| `ElasticRing.ElasticRing.FreeSpace` | drivers/audio/audio_utility/audio_ringbuf_pure.c:81-104 | free space, data and the gap of 16 bytes make up the memory; without memory nothing is free |
| `ElasticRing.ElasticRing.Perform` | drivers/audio/audio_utility/audio_ringbuf_pure.c:107-536 | one write, fill, compensation, read, drop or roll-back does to the ring what it does to a tape with a cursor; a roll-back over bytes still in the memory, also past later writes that fit, or one too far, which is refused |
| `ElasticRing.ElasticRing.PerformAll` | drivers/audio/audio_utility/audio_ringbuf_pure.c:107-536 | any run of them on a ring in memory: the contents end as the tape from the cursor on, reads hand out what lies at the cursor, and if nothing is compensated, dropped or rolled back, what was there and was written is what was read and what is left |
| `ElasticRing.TracksRetreat` | drivers/audio/audio_utility/audio_ringbuf_pure.c:500-536 | bytes read or dropped can be rolled back in any portions, and are the same bytes again; a roll-back beyond the free space is refused |
| `ElasticRing.TracksAppend` | drivers/audio/audio_utility/audio_ringbuf_pure.c:153-197 | a write that leaves the memory as it is keeps them there, as far as the free space left reaches |
| `ElasticRing.AppendBehind` | drivers/audio/audio_utility/audio_ringbuf_pure.c:153-197 | appending and stepping back over bytes that stay in the memory can be exchanged |
| `ElasticRing.RunConserves` | drivers/audio/audio_utility/audio_ringbuf_pure.c:107-536 | over any run of a ring no byte is lost or doubled; without compensation the tape is what was there and what was written, in order, however often it is rolled back |
| `ElasticRing.EqualMeansEmpty` | drivers/audio/audio_utility/audio_ringbuf_pure.c:96-101 | thanks to the gap equal pointers always mean empty |
| `ElasticRing.RollbackUndoesRead` | drivers/audio/audio_utility/audio_ringbuf_pure.c:500-536 | reading any bytes available and rolling them back restores the whole ring, and the guard never rejects it |
| `ElasticRing.RollbackExposes` | drivers/audio/audio_utility/audio_ringbuf_pure.c:500-536 | rolling back further puts bytes in front of the data, which itself stays |
| `ElasticRing.AdvanceDrops` | drivers/audio/audio_utility/audio_ringbuf_pure.c:385-415 | moving the read pointer on removes a prefix |
| `ElasticRing.AppendAppends` | drivers/audio/audio_utility/audio_ringbuf_pure.c:153-197 | storing at the write pointer appends |
| `ElasticRing.PrependPrepends` | drivers/audio/audio_utility/audio_ringbuf_pure.c:430-480 | storing before the read pointer prepends |
| `ElasticRing.AppendTwice` | drivers/audio/audio_utility/audio_ringbuf_pure.c:262-275 | appending in two parts is appending the whole |
| `ElasticRing.AppendCopies` | drivers/audio/audio_utility/audio_ringbuf_pure.c:177-196 | the split at the end of the memory, and that it never comes about while the data passes the end |
| `ElasticRing.PrependFills` | drivers/audio/audio_utility/audio_ringbuf_pure.c:460-479 | the split below the read pointer |
| `IpiRegion.RunDelivers` | drivers/audio/framework/audio_ipi_dma.c:624-750 | over any run of sends and in-order takes, every message taken has the bytes sent, read at the index its write reported, in the order sent, and none is refused |
| `IpiRegion.OverlapIsHarmless` | drivers/audio/framework/audio_ipi_dma.c:624-750 | however the calls of the two sides overlap, each going by the other's index as fetched at its beginning and publishing its own at its end, the region is what whole calls make of it, each accepted one at the moment at which it ends |
| `IpiRegion.EndSendIs` | drivers/audio/framework/audio_ipi_dma.c:387-492 | a write accepted by a read index that is out of date is accepted by the present one and stores the same |
| `IpiRegion.EndTakeIs` | drivers/audio/framework/audio_ipi_dma.c:495-569 | a read by a write index that is out of date finds its message all the same |
| `IpiRegion.DoKeeps` | drivers/audio/framework/audio_ipi_dma.c:624-750 | indices fetched are out of date only in being behind, whatever the other side does |
| `IpiRegion.SendKeeps` | drivers/audio/framework/audio_ipi_dma.c:624-662 | a send keeps the region faithful to the messages on their way |
| `IpiRegion.TakeKeeps` | drivers/audio/framework/audio_ipi_dma.c:665-750 | so does a read or a drop at the reported index |
| `IpiRegion.TakeHead` | drivers/audio/framework/audio_ipi_dma.c:665-707 | the oldest message is what reading at its index gives, where the reader already is |
| `IpiRegion.QueuedPush` | drivers/audio/framework/audio_ipi_dma.c:449-461 | storing behind the other messages leaves them as they are |
| `IpiRegion.WriteKeeps` | drivers/audio/framework/audio_ipi_dma.c:387-492 | every write keeps size and indices whole lines, is accepted exactly if a whole line stays free, never makes the indices equal, and when refused reports the overflow and only takes the indices into the memory |
| `IpiRegion.ReadKeeps` | drivers/audio/framework/audio_ipi_dma.c:495-569 | every read keeps them and is accepted exactly if so many lines are queued; a refused one gives nothing and only takes the indices into the memory |
| `IpiRegion.SplitsWhenAligned` | drivers/audio/framework/audio_ipi_dma.c:449-455 | padded length beyond the end implies real length beyond it, for all lengths, if and only if the end is whole lines away |
| `IpiRegion.PadCovers` | drivers/audio/framework/audio_ipi_dma.c:73 | the rounded length covers the real one exactly for lengths up to 2^32 - 128 |
| `IpiRegion.RoomInLines` | drivers/audio/framework/audio_ipi_dma.c:369-384 | a padded length fits beside the gap exactly if it fits beside a free line |
| `IpiRegion.NormalAligned` | drivers/audio/framework/audio_ipi_dma.c:423-430 | stray indices that are whole lines are still so when taken into the memory |
| `IpiRegion.WrapTurns` | drivers/audio/framework/audio_ipi_dma.c:423-430 | taking an index into the memory takes whole turns off it |
| `IpiRegion.SharedRegion.WriteFromLinear` | drivers/audio/framework/audio_ipi_dma.c:387-492 | the transfer in memory, with its error returns and its split, is the write of the lemmas |
| `IpiRegion.SharedRegion.ReadToLinear` | drivers/audio/framework/audio_ipi_dma.c:495-569 | so is the read |
| `IpiRegion.SharedRegion.DropData` | drivers/audio/framework/audio_ipi_dma.c:572-621 | so is the drop |
| `IpiRegion.SharedRegion.WriteRegion` | drivers/audio/framework/audio_ipi_dma.c:624-662 | empty data is refused; else the index before the write is reported |
| `IpiRegion.SharedRegion.ReadRegion` | drivers/audio/framework/audio_ipi_dma.c:665-707 | the region is read at the index given |
| `IpiRegion.SharedRegion.DropRegion` | drivers/audio/framework/audio_ipi_dma.c:710-750 | and dropped from there |
| `IpiRegion.SharedRegion.DataCount` | drivers/audio/framework/audio_ipi_dma.c:340-366 | indices in range are left alone and the count is the distance; a stray one is taken into the memory, the read index before the write index and one at a time |
| `IpiRegion.FreshLink` | drivers/audio/framework/audio_ipi_dma.c:340-366 | equal indices mean that nothing is on its way |
| `FullRing.FullRing.CopyToLinear` | drivers/audio/audio_utility/audio_ringbuf.c:79-112 | hands out and removes the first bytes; more than there are changes nothing |
| `FullRing.FullRing.CopyFromLinear` | drivers/audio/audio_utility/audio_ringbuf.c:121-157 | appends when the bytes fit, up to the whole memory, and changes nothing otherwise |
| `FullRing.FullRing.WriteDataValue` | drivers/audio/audio_utility/audio_ringbuf.c:243-274 | appends when they fit; too many are not refused: the ring is valid afterwards if and only if they fit |
| `FullRing.FullRing.UpdateWritePtr` | drivers/audio/audio_utility/audio_ringbuf.c:276-314 | an advance within the free space adds just that; after an overflow the ring is valid if and only if, as computed beforehand, the indices come to agree or to lie half the memory apart, because the recount is of the free space; pointer and recount are stated for every advance |
| `FullRing.WriteLandsAt` | drivers/audio/audio_utility/audio_ringbuf.c:285-299 | one turn is taken off at the end of the memory, and a write pointer that would pass the read pointer on the way from behind it goes to the front instead |
| `FullRing.FullRing.UpdateReadPtr` | drivers/audio/audio_utility/audio_ringbuf.c:316-354 | an advance within the data takes just that; after an underflow the ring is valid if and only if the pointer, having come round, does not pass the write index; pointer and recount are stated for every advance |
| `FullRing.FullRing.SyncWriteIdx` | drivers/audio/audio_utility/audio_ringbuf.c:943-984 | a bridge whose write index is ahead by k within the free space: exactly k is added if and only if that index has moved, the ring is full, or the bridge counts k more than the ring; otherwise the difference of the counts is added |
| `FullRing.LagExact` | drivers/audio/audio_utility/audio_ringbuf.c:943-984 | the same of the amount that the ring takes itself to be behind, which always fits |
| `FullRing.TakenComesBack` | drivers/audio/audio_utility/audio_ringbuf.c:972-1003 | publishing the read index leaves the bridge's count, so what was taken from a ring that agreed with its bridge is put in again at the next sync, although nothing was written |
| `FullRing.PhantomBytes` | drivers/audio/audio_utility/audio_ringbuf.c:972-1003 | an example: four bytes arrive, two are taken, and two that do not exist are added |
| `FullRing.CountMustFollow` | drivers/audio/audio_utility/audio_ringbuf.c:1005-1028 | publishing the write index without the count leaves a bridge whose indices and count agree only if it has not moved or comes round to the same place |
| `FullRing.FullRing.SyncReadIdx` | drivers/audio/audio_utility/audio_ringbuf.c:907-941 | a bridge whose read index is ahead by k within the data makes the indices agree; exactly k is taken off if and only if k is less than the whole memory |
| `FullRing.CountDecides` | drivers/audio/audio_utility/audio_ringbuf.c:62-71 | two valid rings that differ in the count alone are one empty and one full |
| `FullRing.CheckIsValid` | drivers/audio/audio_utility/audio_ringbuf.c:712-770 | the self-check accepts exactly the valid rings once the pointers are below the end |
| `FullRing.TookDrops` | drivers/audio/audio_utility/audio_ringbuf.c:79-112 | taking removes a prefix |
| `FullRing.PutAppends` | drivers/audio/audio_utility/audio_ringbuf.c:121-157 | putting appends |
| `FullRing.GrewAppends` | drivers/audio/audio_utility/audio_ringbuf.c:276-314 | growing appends what lies in the memory |
| `FullRing.PutCopies` | drivers/audio/audio_utility/audio_ringbuf.c:135-156 | the split at the end of the memory |
| `FlightRecorder.Recovers` | middleware/pbfr/pbfr_rec.c:100-163 | after any run of events, reading the buffer back from last_event_ns gives the latest events with their exact 64-bit times, at least half as many as records are held |
| `FlightRecorder.HoldsLast` | middleware/pbfr/pbfr_rec.c:98-128 | the buffer holds exactly the last n records made, in order |
| `FlightRecorder.DecodesSuffix` | middleware/pbfr/pbfr_rec.c:137-163 | decoding the last m records, whatever was evicted and even when that cuts a high word from its event, gives the last events with their exact times |
| `FlightRecorder.TailDecodes` | middleware/pbfr/pbfr_rec.c:150-161 | decoding takes the records of one event off and steps back to the time before it, modulo 2^64 |
| `FlightRecorder.EmittedIs` | middleware/pbfr/pbfr_rec.c:137-163 | less than 2^32 ticks after the event before, an event is one record with that time; otherwise a record of type 0x84 with the high word goes before it, with the task number of the event before and no filler |
| `FlightRecorder.OneEvent` | middleware/pbfr/pbfr_rec.c:152-161 | an event whose high word was evicted is still decoded |
| `FlightRecorder.Recorder.AddEvent` | middleware/pbfr/pbfr_rec.c:137-163 | an event appends one record or two, the high word first in the reused scratch record, and the buffer then decodes to the latest events |
| `FlightRecorder.Recorder.InsertBuffer` | middleware/pbfr/pbfr_rec.c:98-128 | a record is appended, over the oldest one when the buffer is full |
| `FlightRecorder.Recorder.constructor` | middleware/pbfr/pbfr_rec.c:80-97 | an empty buffer of fewer than 256 records |

## Left out

Of the modelled files:

- Null-pointer checks of arguments, log text, debug dumps, trace information and timing statistics.
- Hardware timeouts and failing callbacks in power on and off, a failing set_parent operation and a failing lookup of a stand-in clock: the code does not roll counts back there.
- Hardware-voter domains (`hv_id`), slots without a registered domain, and the 32-bit wrap of a domain's counter.
- The order of the steps inside `power_on` and `power_off` (bus protection, memories, acknowledgements); clock and power are two writes.
- PLL tuner writes, and the register writes behind the ops of PLLs, gates and fixed factors: which op switches a clock is modelled, the steps inside one op are not.
- `ClockDriver.Driver.SetParentNolock`: does not say that all counters differ from those of the lemmas whenever a vote takes one past 127: giving back the former parent's votes could make up for it when a group lists a clock 256 times.
- Rates where sums inside the PLL pass 32 bits or the multiplier its field: `Fits` says which limits exclude that. A parent rate of 0 in `round_rate`, which divides by it.
- `ClockRates.PllRegisters.ClkSetRate`: does not model handing the request on to the parent clock, because a PLL's `round_rate` leaves the parent's rate alone.
- `ElasticRing.ElasticRing.Perform`: a roll-back steps over bytes that are still in the memory, or is refused; what steps back over older bytes within the free space expose is stated for a single call (`ElasticRing.RollbackExposes`).
- `audio_ringbuf_drop_all`, which clears the pointers and leaves the base. Sizes whose eightfold passes 32 bits.
- The copies between two full-capacity rings, which never lower the source's count, the pointer updates of the bridge itself, and the cache and DMA variants of the ring operations.
- `FullRing.FullRing.WriteDataValue`: does not model stores beyond the memory; the requirement says which counts those are.
- `IpiRegion.OverlapIsHarmless`: the bytes of a call are copied at its end, in one step with publishing its index; caches that hold back the order of the two are not modelled.
- Region lengths above 2^32 - 128, where the rounding wraps (`IpiRegion.PadCovers` says exactly when), and the variant with lines of 32 bytes.
- `FlightRecorder.Recovers`: does not model events of the type that marks a high word, which no caller records. The second, long buffer and the interrupt nesting around a call.
- The mixer's bodies behind the writers: sample-rate and bit-depth conversion (any byte count up to a bound may come out), muting, latency figures, suspend sleeps, log masks. `MixerWakeup` keeps byte counts, `MixerSum` bytes.
- `MixerWakeup.NoLostWakeUp`: models the threads as steps of a state machine on values, one for each lock-protected block and one for each path in a scan, not as code updating shared memory; the safety of walking the list of paths during a scan is not modelled, nor are the signals by which the mix wakes its writers.
- `MixerProgress.NoDeadlock`: models the locks of one target and its paths and the manager's; a source that writes to several targets holds its own lock meanwhile, and taking a target away then waits for the mixing thread. The timed wait of a writer for its data to be mixed, and the trace-back of lock owners in the lock's own file, are not modelled.
- `MixerSum.MixTarget.DoMix`: does not model buffers that are no whole number of samples, whose last bytes the code leaves from the last path.
- `MixerPaths.Manager.AttachSource`: does not model keys that start again after 2^32 attaches. Which writer function a path gets is part of `MixerWakeup` only as the mode, and the wait for a thread to become idle is left out. Bucket arithmetic of the hash tables is a list with a search by key.

Of the rest of the repository: drivers for buses, timers, watchdogs and interrupts, the command line, creation of threads and scripts, which are register plumbing, user interface or shallow.
