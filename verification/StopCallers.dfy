/** Callers of a `Stop` that does its work once: the deferred one of `Run` and any number from
    elsewhere. */
module StopCallers {
  import opened MapSums

  datatype CallerId = Deferred | External(id: nat)
  datatype CallerPc = Entered | AtOnce | InBody | Returned

  // ---------------------------------------------------------------- the steps they have left

  function CallerRank(pc: CallerPc): nat {
    match pc
    case Entered => 4
    case AtOnce => 3
    case InBody => 2
    case Returned => 1
  }

  function CallerRanks(callers: map<CallerId, CallerPc>): map<CallerId, nat> {
    map id | id in callers :: CallerRank(callers[id])
  }

  ghost function CallerSupply(callers: map<CallerId, CallerPc>): nat { Sum(CallerRanks(callers)) }

  lemma CallerRankMoved(callers: map<CallerId, CallerPc>, id: CallerId, pc: CallerPc)
    ensures CallerRanks(callers[id := pc]) == CallerRanks(callers)[id := CallerRank(pc)]
    ensures id in callers <==> id in CallerRanks(callers)
    ensures id in callers ==> CallerRanks(callers)[id] == CallerRank(callers[id])
  {
  }

  lemma CallerSupplyMoved(callers: map<CallerId, CallerPc>, id: CallerId, pc: CallerPc)
    ensures CallerSupply(callers[id := pc])
      == CallerSupply(callers) - (if id in callers then CallerRank(callers[id]) else 0) + CallerRank(pc)
  {
    CallerRankMoved(callers, id, pc);
    hide CallerRanks;
    SumUpdate(CallerRanks(callers), id, CallerRank(pc));
  }
}
