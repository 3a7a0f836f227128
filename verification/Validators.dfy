/** The validator set (truffle/contracts/BridgeValidators.sol). */
module Validators {
  import opened Wrappers
  import opened Evm
  import opened SignatureCheck

  /** The contract's storage; `active` is the set of addresses whose `validatorStatus` is true. */
  datatype ValidatorSet = ValidatorSet(
    requiredSignatures: nat, owner: Address, validators: seq<Address>, active: set<Address>, initialized: bool)

  const DEPLOYED := ValidatorSet(0, 0, [], {}, false)

  datatype Call =
    | Initialize(required: nat, initial: seq<Address>, newOwner: Address)
    | AddValidator(validator: Address)
    | RemoveValidator(validator: Address)
    | SetRequiredSignatures(required: nat)

  datatype Transaction = Transaction(sender: Address, call: Call)

  /** How many entries of the array are active, repeats included: `validatorCount()`. */
  function CountActive(validators: seq<Address>, active: set<Address>): nat {
    if validators == [] then 0
    else
      CountActive(validators[..|validators| - 1], active) + (if validators[|validators| - 1] in active then 1 else 0)
  }

  /** The storage after a transaction; `None` reverts. */
  function Step(s: ValidatorSet, tx: Transaction): Option<ValidatorSet> {
    match tx.call
    case Initialize(required, initial, newOwner) =>
      if s.initialized || required == 0 || |initial| < required || 0 in initial then None
      else Some(ValidatorSet(required, newOwner, s.validators + initial, s.active + Elements(initial), true))
    case AddValidator(v) =>
      if tx.sender != s.owner || v == 0 || v in s.active then None
      else Some(s.(validators := s.validators + [v], active := s.active + {v}))
    case RemoveValidator(v) =>
      if tx.sender != s.owner || CountActive(s.validators, s.active) <= s.requiredSignatures || v !in s.active then None
      else Some(s.(active := s.active - {v}))
    case SetRequiredSignatures(required) =>
      if tx.sender != s.owner || CountActive(s.validators, s.active) < required || required == 0 then None
      else Some(s.(requiredSignatures := required))
  }

  function StepOrStay(s: ValidatorSet, tx: Transaction): ValidatorSet {
    match Step(s, tx)
    case None => s
    case Some(t) => t
  }

  class BridgeValidators {
    var requiredSignatures: nat
    var owner: Address
    var validators: seq<Address>
    var active: set<Address>
    var initialized: bool

    ghost function Storage(): ValidatorSet
      reads this
    {
      ValidatorSet(requiredSignatures, owner, validators, active, initialized)
    }

    /** The new storage, or the old one on a revert. */
    twostate predicate Executed(sender: Address, call: Call, ok: bool)
      reads this
    {
      match Step(old(Storage()), Transaction(sender, call))
      case None => !ok && Storage() == old(Storage())
      case Some(s) => ok && Storage() == s
    }

    constructor ()
      ensures Storage() == DEPLOYED
    {
      requiredSignatures, owner, validators, active, initialized := 0, 0, [], {}, false;
    }

    method Initialize(sender: Address, required: nat, initial: seq<Address>, newOwner: Address) returns (ok: bool)
      modifies this
      ensures Executed(sender, Call.Initialize(required, initial, newOwner), ok)
    {
      if initialized || required == 0 || |initial| < required {
        return false;
      }
      var before := (owner, validators, active);
      owner := newOwner;
      for i := 0 to |initial|
        invariant 0 !in initial[..i]
        invariant validators == before.1 + initial[..i] && active == before.2 + Elements(initial[..i])
        invariant owner == newOwner && !initialized && requiredSignatures == old(requiredSignatures)
      {
        if initial[i] == 0 {
          owner, validators, active := before.0, before.1, before.2;
          return false;
        }
        validators := validators + [initial[i]];
        active := active + {initial[i]};
        assert initial[..i + 1] == initial[..i] + [initial[i]];
      }
      assert initial[..|initial|] == initial;
      requiredSignatures := required;
      initialized := true;
      return true;
    }

    method AddValidator(sender: Address, validator: Address) returns (ok: bool)
      modifies this
      ensures Executed(sender, Call.AddValidator(validator), ok)
    {
      if sender != owner || validator == 0 || validator in active {
        return false;
      }
      validators := validators + [validator];
      active := active + {validator};
      return true;
    }

    method RemoveValidator(sender: Address, validator: Address) returns (ok: bool)
      modifies this
      ensures Executed(sender, Call.RemoveValidator(validator), ok)
    {
      var count := ValidatorCount();
      if sender != owner || count <= requiredSignatures || validator !in active {
        return false;
      }
      active := active - {validator};
      return true;
    }

    method SetRequiredSignatures(sender: Address, required: nat) returns (ok: bool)
      modifies this
      ensures Executed(sender, Call.SetRequiredSignatures(required), ok)
    {
      var count := ValidatorCount();
      if sender != owner || count < required || required == 0 {
        return false;
      }
      requiredSignatures := required;
      return true;
    }

    method ValidatorCount() returns (count: nat)
      ensures count == CountActive(validators, active)
      ensures count >= |active * Elements(validators)|
    {
      count := 0;
      for i := 0 to |validators|
        invariant count == CountActive(validators[..i], active)
      {
        assert validators[..i + 1][..i] == validators[..i];
        if validators[i] in active {
          count := count + 1;
        }
      }
      assert validators[..|validators|] == validators;
      CountAtLeast(validators, active);
    }
  }

  /** The count is the number of places in the array that hold an active address. */
  lemma {:induction false} CountIsPlaces(validators: seq<Address>, active: set<Address>)
    ensures CountActive(validators, active) == |set i | 0 <= i < |validators| && validators[i] in active|
  {
    var places := set i | 0 <= i < |validators| && validators[i] in active;
    if validators == [] {
      assert places == {};
    } else {
      var n := |validators| - 1;
      CountIsPlaces(validators[..n], active);
      var before := set i | 0 <= i < n && validators[..n][i] in active;
      assert places == before + (if validators[n] in active then {n} else {});
    }
  }

  lemma {:induction false} CountAtLeast(validators: seq<Address>, active: set<Address>)
    ensures CountActive(validators, active) >= |active * Elements(validators)|
    ensures CountActive(validators, active) == |active * Elements(validators)| <==> NoActiveRepeat(validators, active)
  {
    if validators != [] {
      var last, front := validators[|validators| - 1], validators[..|validators| - 1];
      CountAtLeast(front, active);
      LastRepeat(validators, active);
      var before, after := active * Elements(front), active * Elements(validators);
      if last in active && last !in front {
        assert after == before + {last};
      } else {
        assert after == before;
      }
    }
  }

  lemma {:induction false} LastRepeat(validators: seq<Address>, active: set<Address>)
    requires validators != []
    ensures var last, front := validators[|validators| - 1], validators[..|validators| - 1];
            NoActiveRepeat(validators, active) <==> NoActiveRepeat(front, active) && (last in active ==> last !in front)
  {
    var n := |validators| - 1;
    var last, front := validators[n], validators[..n];
    assert forall i :: 0 <= i < n ==> front[i] == validators[i];
    if last in active && last in front {
      var i :| 0 <= i < n && front[i] == last;
      assert validators[i] == validators[n];
    }
  }

  /** No active address occurs twice in the array. */
  ghost predicate NoActiveRepeat(validators: seq<Address>, active: set<Address>) {
    forall i, j :: 0 <= i < j < |validators| && validators[i] in active ==> validators[i] != validators[j]
  }

  /** Kept by every call: active validators are in the array, and neither holds the zero address. */
  ghost predicate WellFormed(s: ValidatorSet) {
    && s.active <= Elements(s.validators)
    && 0 !in s.validators
    && (!s.initialized ==> s == DEPLOYED)
  }

  /** The count is the number of active validators, and the threshold is within it. */
  ghost predicate Accurate(s: ValidatorSet) {
    && CountActive(s.validators, s.active) == |s.active|
    && (s.initialized ==> 1 <= s.requiredSignatures <= |s.active|)
  }

  lemma {:induction false} StepKeepsWellFormed(s: ValidatorSet, tx: Transaction)
    requires WellFormed(s) && tx.sender != 0
    ensures WellFormed(StepOrStay(s, tx))
  {
  }

  /** With a well-formed set, the count is exact precisely when no active address is listed twice. */
  lemma {:induction false} CountExact(s: ValidatorSet)
    requires WellFormed(s)
    ensures CountActive(s.validators, s.active) == |s.active| <==> NoActiveRepeat(s.validators, s.active)
    ensures CountActive(s.validators, s.active) >= |s.active|
  {
    CountAtLeast(s.validators, s.active);
    assert s.active * Elements(s.validators) == s.active;
  }

  /** Exactly when a call is accepted. */
  lemma {:induction false} AcceptedIff(s: ValidatorSet, tx: Transaction)
    ensures Step(s, tx).Some? <==>
            match tx.call
            case Initialize(required, initial, _) =>
              !s.initialized && 1 <= required <= |initial| && forall i :: 0 <= i < |initial| ==> initial[i] != 0
            case AddValidator(v) => tx.sender == s.owner && v != 0 && v !in s.active
            case RemoveValidator(v) =>
              tx.sender == s.owner && v in s.active && s.requiredSignatures < CountActive(s.validators, s.active)
            case SetRequiredSignatures(required) =>
              tx.sender == s.owner && 1 <= required <= CountActive(s.validators, s.active)
  {
  }

  /** Whether an address is a validator after a call, and what the call did to the rest of the storage. */
  lemma {:induction false} CallEffects(s: ValidatorSet, tx: Transaction)
    ensures var t := StepOrStay(s, tx);
            var accepted := Step(s, tx).Some?;
            && (!accepted ==> t == s)
            && t.requiredSignatures ==
               (if accepted && (tx.call.Initialize? || tx.call.SetRequiredSignatures?) then tx.call.required
                else s.requiredSignatures)
            && t.owner == (if accepted && tx.call.Initialize? then tx.call.newOwner else s.owner)
            && t.initialized == (s.initialized || (accepted && tx.call.Initialize?))
            && t.validators == s.validators +
               (if accepted && tx.call.Initialize? then tx.call.initial
                else if accepted && tx.call.AddValidator? then [tx.call.validator] else [])
            && (forall a :: a in t.active <==>
                  if accepted && Concerns(tx, a) then !tx.call.RemoveValidator? else a in s.active)
  {
  }

  /** The call makes the address a validator, or stops it from being one. */
  predicate Concerns(tx: Transaction, a: Address) {
    match tx.call
    case Initialize(_, initial, _) => a in initial
    case AddValidator(v) => v == a
    case RemoveValidator(v) => v == a
    case SetRequiredSignatures(_) => false
  }

  /* Runs. */

  /** The storage after a run from deployment. */
  function After(run: seq<Transaction>): ValidatorSet {
    if run == [] then DEPLOYED else StepOrStay(After(run[..|run| - 1]), run[|run| - 1])
  }

  /** The i-th call of the run was accepted. */
  predicate AcceptedAt(run: seq<Transaction>, i: nat)
    requires i < |run|
  {
    Step(After(run[..i]), run[i]).Some?
  }

  /** Its acceptance fixed the threshold; by the owner of the moment, if it was not the initialization. */
  predicate SetsThreshold(run: seq<Transaction>, i: nat)
    requires i < |run|
  {
    AcceptedAt(run, i) && (run[i].call.Initialize? || run[i].call.SetRequiredSignatures?)
  }

  /** A variable holds what was written last. */
  lemma {:induction false} LastWrite<T>(writes: nat -> bool, value: nat -> T, holds: nat -> T, n: nat) returns (last: int)
    requires forall j {:trigger writes(j)} :: 0 <= j < n ==> holds(j + 1) == if writes(j) then value(j) else holds(j)
    ensures -1 <= last < n && forall j :: last < j < n ==> !writes(j)
    ensures last == -1 ==> holds(n) == holds(0)
    ensures last >= 0 ==> writes(last) && holds(n) == value(last)
  {
    last := -1;
    if n > 0 {
      last := LastWrite(writes, value, holds, n - 1);
      if writes(n - 1) {
        last := n - 1;
      }
    }
  }

  lemma {:induction false} OneMore(run: seq<Transaction>, n: nat)
    requires n < |run|
    ensures After(run[..n + 1]) == StepOrStay(After(run[..n]), run[n])
    ensures After(run[..n + 1]).requiredSignatures ==
            if SetsThreshold(run, n) then run[n].call.required else After(run[..n]).requiredSignatures
    ensures forall a :: a in After(run[..n + 1]).active <==>
                        if Decides(run, n, a) then !run[n].call.RemoveValidator? else a in After(run[..n]).active
  {
    assert run[..n + 1][..n] == run[..n];
    CallEffects(After(run[..n]), run[n]);
  }

  /**
   * In every run the threshold in force is the argument of the last accepted `initialize` or
   * `setRequiredSignatures`, the latter from the owner of that moment; and zero before any.
   */
  lemma {:induction false} ThresholdInForce(run: seq<Transaction>) returns (last: int)
    ensures -1 <= last < |run| && forall j :: last < j < |run| ==> !SetsThreshold(run, j)
    ensures last == -1 ==> After(run).requiredSignatures == 0
    ensures last >= 0 ==>
              && SetsThreshold(run, last) && After(run).requiredSignatures == run[last].call.required
              && (run[last].call.SetRequiredSignatures? ==> run[last].sender == After(run[..last]).owner)
  {
    last := ThresholdWrites(run);
    if last >= 0 {
      AcceptedIff(After(run[..last]), run[last]);
    }
  }

  lemma {:induction false} ThresholdWrites(run: seq<Transaction>) returns (last: int)
    ensures -1 <= last < |run| && forall j :: last < j < |run| ==> !SetsThreshold(run, j)
    ensures last == -1 ==> After(run).requiredSignatures == 0
    ensures last >= 0 ==> SetsThreshold(run, last) && After(run).requiredSignatures == run[last].call.required
  {
    var writes := (j: nat) => j < |run| && SetsThreshold(run, j);
    var value := (j: nat) => if j < |run| && SetsThreshold(run, j) then run[j].call.required else 0;
    var holds := (j: nat) => if j <= |run| then After(run[..j]).requiredSignatures else 0;
    forall j | 0 <= j < |run| ensures holds(j + 1) == if writes(j) then value(j) else holds(j) {
      OneMore(run, j);
    }
    last := LastWrite(writes, value, holds, |run|);
    assert run[..|run|] == run && run[..0] == [];
    forall j | last < j < |run| ensures !SetsThreshold(run, j) {
      assert !writes(j);
    }
  }

  /** The i-th call was accepted and made the address a validator, or stopped it from being one. */
  predicate Decides(run: seq<Transaction>, i: nat, a: Address)
    requires i < |run|
  {
    AcceptedAt(run, i) && Concerns(run[i], a)
  }

  /**
   * In every run an address is a validator exactly when the last accepted call about it was one that
   * listed or added it; only the owner of the moment adds and removes.
   */
  lemma {:induction false} ValidatorIffAddedLast(run: seq<Transaction>, a: Address) returns (last: int)
    ensures -1 <= last < |run| && forall j :: last < j < |run| ==> !Decides(run, j, a)
    ensures last >= 0 ==> Decides(run, last, a)
    ensures a in After(run).active <==> last >= 0 && !run[last].call.RemoveValidator?
    ensures last >= 0 && !run[last].call.Initialize? ==> run[last].sender == After(run[..last]).owner
  {
    last := ValidatorWrites(run, a);
    if last >= 0 {
      AcceptedIff(After(run[..last]), run[last]);
    }
  }

  lemma {:induction false} ValidatorWrites(run: seq<Transaction>, a: Address) returns (last: int)
    ensures -1 <= last < |run| && forall j :: last < j < |run| ==> !Decides(run, j, a)
    ensures last >= 0 ==> Decides(run, last, a)
    ensures a in After(run).active <==> last >= 0 && !run[last].call.RemoveValidator?
  {
    var writes := (j: nat) => j < |run| && Decides(run, j, a);
    var value := (j: nat) => j < |run| && !run[j].call.RemoveValidator?;
    var holds := (j: nat) => j <= |run| && a in After(run[..j]).active;
    forall j | 0 <= j < |run| ensures holds(j + 1) == if writes(j) then value(j) else holds(j) {
      OneMore(run, j);
    }
    last := LastWrite(writes, value, holds, |run|);
    assert run[..|run|] == run && run[..0] == [];
    forall j | last < j < |run| ensures !Decides(run, j, a) {
      assert !writes(j);
    }
  }

  /** The transaction is accepted and lists an address again that the array already holds. */
  predicate Relists(s: ValidatorSet, tx: Transaction) {
    && Step(s, tx).Some?
    && match tx.call
       case Initialize(_, initial, _) => !Distinct(initial)
       case AddValidator(v) => v in s.validators
       case _ => false
  }

  predicate NeverRelists(s: ValidatorSet, run: seq<Transaction>)
    decreases |run|
  {
    run == [] || (!Relists(s, run[0]) && NeverRelists(StepOrStay(s, run[0]), run[1..]))
  }

  /** The set is accurate before the run and after each of its transactions. */
  ghost predicate AlwaysAccurate(s: ValidatorSet, run: seq<Transaction>)
    decreases |run|
  {
    Accurate(s) && (run == [] || AlwaysAccurate(StepOrStay(s, run[0]), run[1..]))
  }

  /**
   * From deployment, `validatorCount()` is the number of active validators and the threshold lies
   * between one and it throughout a run exactly when the run never lists an address again that the
   * array already holds, that is, never re-adds a removed validator.
   */
  lemma {:induction false} AccurateIffNeverRelists(run: seq<Transaction>)
    requires forall i :: 0 <= i < |run| ==> run[i].sender != 0
    ensures AlwaysAccurate(DEPLOYED, run) <==> NeverRelists(DEPLOYED, run)
  {
    AccurateFrom(DEPLOYED, run);
  }

  lemma {:induction false} AccurateFrom(s: ValidatorSet, run: seq<Transaction>)
    requires forall i :: 0 <= i < |run| ==> run[i].sender != 0
    requires WellFormed(s) && Accurate(s) && Distinct(s.validators)
    ensures AlwaysAccurate(s, run) <==> NeverRelists(s, run)
    decreases |run|
  {
    if run != [] {
      var t := StepOrStay(s, run[0]);
      StepKeepsWellFormed(s, run[0]);
      AccurateStep(s, run[0]);
      if !Relists(s, run[0]) {
        AccurateFrom(t, run[1..]);
      }
    }
  }

  lemma {:induction false} AccurateStep(s: ValidatorSet, tx: Transaction)
    requires WellFormed(s) && Accurate(s) && Distinct(s.validators) && tx.sender != 0
    ensures Relists(s, tx) ==> !Accurate(StepOrStay(s, tx))
    ensures !Relists(s, tx) ==> Accurate(StepOrStay(s, tx)) && Distinct(StepOrStay(s, tx).validators)
  {
    match tx.call
    case Initialize(_, _, _) => AccurateInitialize(s, tx);
    case AddValidator(_) => AccurateAdd(s, tx);
    case _ => AccurateOther(s, tx);
  }

  lemma {:induction false} AccurateInitialize(s: ValidatorSet, tx: Transaction)
    requires tx.call.Initialize?
    requires WellFormed(s) && Accurate(s) && Distinct(s.validators) && tx.sender != 0
    ensures Relists(s, tx) ==> !Accurate(StepOrStay(s, tx))
    ensures !Relists(s, tx) ==> Accurate(StepOrStay(s, tx)) && Distinct(StepOrStay(s, tx).validators)
  {
    if Step(s, tx).Some? {
      var initial := tx.call.initial;
      AccurateList(tx.call.required, tx.call.newOwner, initial);
      assert s == DEPLOYED && [] + initial == initial && {} + Elements(initial) == Elements(initial);
    }
  }

  lemma {:induction false} AccurateList(required: nat, owner: Address, list: seq<Address>)
    requires 0 !in list && 1 <= required <= |list|
    ensures Accurate(ValidatorSet(required, owner, list, Elements(list), true)) <==> Distinct(list)
  {
    AllActive(list);
    CountExact(ValidatorSet(required, owner, list, Elements(list), true));
  }

  lemma {:induction false} AccurateAdd(s: ValidatorSet, tx: Transaction)
    requires tx.call.AddValidator?
    requires WellFormed(s) && Accurate(s) && Distinct(s.validators) && tx.sender != 0
    ensures Relists(s, tx) ==> !Accurate(StepOrStay(s, tx))
    ensures !Relists(s, tx) ==> Accurate(StepOrStay(s, tx)) && Distinct(StepOrStay(s, tx).validators)
  {
    if Step(s, tx).Some? {
      StepKeepsWellFormed(s, tx);
      Listed(s.validators, s.active, tx.call.validator);
      CountExact(StepOrStay(s, tx));
    }
  }

  lemma {:induction false} AccurateOther(s: ValidatorSet, tx: Transaction)
    requires tx.call.RemoveValidator? || tx.call.SetRequiredSignatures?
    requires WellFormed(s) && Accurate(s) && Distinct(s.validators) && tx.sender != 0
    ensures Accurate(StepOrStay(s, tx)) && StepOrStay(s, tx).validators == s.validators
  {
    StepKeepsWellFormed(s, tx);
    CountExact(StepOrStay(s, tx));
  }

  lemma {:induction false} AllActive(list: seq<Address>)
    ensures NoActiveRepeat(list, Elements(list)) <==> Distinct(list)
    ensures Distinct(list) ==> |Elements(list)| == |list|
  {
    ElementsSize(list);
    assert forall i :: 0 <= i < |list| ==> list[i] in Elements(list);
  }

  lemma {:induction false} Listed(validators: seq<Address>, active: set<Address>, v: Address)
    requires Distinct(validators)
    ensures NoActiveRepeat(validators + [v], active + {v}) <==> v !in validators
    ensures v !in validators ==> Distinct(validators + [v])
  {
    var more := validators + [v];
    assert more[..|more| - 1] == validators;
    LastRepeat(more, active + {v});
  }

  /**
   * Re-adding a removed validator makes the count wrong, and removals may then leave fewer active
   * validators than signatures required.
   */
  lemma {:induction false} ReAddedValidatorIsCountedTwice()
    ensures var run := [
              Transaction(9, Initialize(2, [1, 2, 3], 9)), Transaction(9, RemoveValidator(3)),
              Transaction(9, AddValidator(3)), Transaction(9, RemoveValidator(1)), Transaction(9, RemoveValidator(2))];
            var end := StepOrStay(StepOrStay(StepOrStay(StepOrStay(StepOrStay(DEPLOYED,
              run[0]), run[1]), run[2]), run[3]), run[4]);
            end.active == {3} && end.requiredSignatures == 2 && CountActive(end.validators, end.active) == 2
  {
    var a := StepOrStay(DEPLOYED, Transaction(9, Initialize(2, [1, 2, 3], 9)));
    assert a == ValidatorSet(2, 9, [1, 2, 3], {1, 2, 3}, true);
    CountOfFour([1, 2, 3], 3, a.active);
    var b := StepOrStay(a, Transaction(9, RemoveValidator(3)));
    assert b == ValidatorSet(2, 9, [1, 2, 3], {1, 2}, true);
    var c := StepOrStay(b, Transaction(9, AddValidator(3)));
    assert c == ValidatorSet(2, 9, [1, 2, 3, 3], {1, 2, 3}, true);
    CountOfFour([1, 2, 3], 3, c.active);
    var d := StepOrStay(c, Transaction(9, RemoveValidator(1)));
    assert d == ValidatorSet(2, 9, [1, 2, 3, 3], {2, 3}, true);
    CountOfFour([1, 2, 3], 3, d.active);
    var e := StepOrStay(d, Transaction(9, RemoveValidator(2)));
    assert e == ValidatorSet(2, 9, [1, 2, 3, 3], {3}, true);
    CountOfFour([1, 2, 3], 3, e.active);
  }

  lemma {:induction false} CountOfFour(v: seq<Address>, last: Address, active: set<Address>)
    requires |v| == 3
    ensures CountActive(v, active) ==
            (if v[0] in active then 1 else 0) + (if v[1] in active then 1 else 0) + (if v[2] in active then 1 else 0)
    ensures CountActive(v + [last], active) == CountActive(v, active) + (if last in active then 1 else 0)
  {
    assert (v + [last])[..3] == v;
    assert v[..2][..1] == v[..1] && v[..1][..0] == [];
    assert CountActive(v[..1], active) == if v[0] in active then 1 else 0;
    assert CountActive(v[..2], active) == CountActive(v[..1], active) + (if v[1] in active then 1 else 0);
  }
}
