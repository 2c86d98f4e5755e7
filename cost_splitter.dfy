/**
 * The cost-splitting escrow contract (cost-splitter/src/lib.rs).
 *
 * An agreement asks a number of participants to pay at least an equal
 * share each; once the collected value reaches the total, the whole of it
 * is sent to the payee in the same call. The caller (`msg::sender`), the
 * attached value (`msg::value`), the block time and the outcome of the
 * payout transfer are parameters of the methods.
 */
module CostSplitter {
  import opened Evm
  import opened IdentityGenerator
  import MapSums

  datatype Error =
    | AgreementNotFound
    | AlreadyPaid
    | AgreementAlreadyCompleted
    | InsufficientContribution
    | InvalidParameters
      /** The payout to the payee failed; its revert data is passed on. */
    | TransferFailed

  datatype Result<T> = Ok(value: T) | Err(error: Error)

  /** A `SplitAgreement` storage record. */
  datatype Agreement = Agreement(
    id: Digest,
    participantCount: U256,
    totalAmount: U256,
    payee: Address,
    collected: U256,
    completed: bool,
    timestamp: U256,
    sharePerParticipant: U256)

  /** What storage yields for an id never written: every field zero. */
  const EMPTY_AGREEMENT := Agreement(ZeroWord, 0, 0, ZERO_ADDRESS, 0, false, 0, 0)

  /** The value sent to the payee when an agreement completes. */
  datatype Payout = Payout(to: Address, amount: U256)

  /**
   * Each participant's share, rounded down: the shares of all participants
   * never exceed the total, and fall short of it by less than one share
   * per participant.
   */
  function Share(totalAmount: U256, participantCount: U256): (share: U256)
    requires participantCount > 0
    ensures share * participantCount <= totalAmount < (share + 1) * participantCount
  {
    totalAmount / participantCount
  }

  /** The contributions recorded for agreement `id`, keyed as in storage. */
  ghost function ContributionsTo(contributions: map<(Digest, Address), U256>, id: Digest): (m: map<(Digest, Address), nat>)
    ensures forall k :: k in m <==> k in contributions && k.0 == id
  {
    map k | k in contributions && k.0 == id :: contributions[k]
  }

  /** A stored agreement is consistent with its key and its creation. */
  ghost predicate WellFormed(id: Digest, a: Agreement) {
    && a.id == id
    && a.participantCount > 0
    && a.totalAmount > 0
    && a.sharePerParticipant == Share(a.totalAmount, a.participantCount)
    && (a.completed <==> a.collected >= a.totalAmount)
  }

  /** Sum of the contributions recorded for agreement `id`. */
  ghost function Contributed(contributions: map<(Digest, Address), U256>, id: Digest): nat {
    MapSums.Sum(ContributionsTo(contributions, id))
  }

  /**
   * The shape of the contract's storage: the agreements are stored exactly
   * under the ids of the counter values issued so far, and each is well
   * formed; a `has_paid` flag is set exactly where a contribution is
   * recorded, only for stored agreements, and each recorded contribution
   * covers the share.
   */
  ghost predicate Consistent(
    agreements: map<Digest, Agreement>,
    hasPaid: map<(Digest, Address), bool>,
    contributions: map<(Digest, Address), U256>,
    agreementCount: U256)
  {
    && agreements.Keys == IdsBelow(agreementCount)
    && (forall id :: id in agreements ==> WellFormed(id, agreements[id]))
    && hasPaid.Keys == contributions.Keys
    && (forall k :: k in hasPaid ==> hasPaid[k])
    && (forall k :: k in contributions ==>
          k.0 in agreements && contributions[k] >= agreements[k.0].sharePerParticipant)
  }

  /** Each agreement's `collected` is, modulo 2^256, the sum of its recorded contributions. */
  ghost predicate CollectedIsContributed(
    agreements: map<Digest, Agreement>,
    contributions: map<(Digest, Address), U256>)
  {
    forall id :: id in agreements ==> agreements[id].collected == Truncate(Contributed(contributions, id))
  }

  class CostSplitter {
    var agreements: map<Digest, Agreement>
    var hasPaid: map<(Digest, Address), bool>
    var contributions: map<(Digest, Address), U256>
    var agreementCount: U256

    /** The invariant kept from deployment on. */
    ghost predicate Valid()
      reads this
    {
      && Consistent(agreements, hasPaid, contributions, agreementCount)
      && CollectedIsContributed(agreements, contributions)
    }

    /** Deployment with the `init` call made once: empty storage, counter zero. */
    constructor ()
      ensures Valid()
      ensures agreements == map[] && hasPaid == map[] && contributions == map[]
      ensures agreementCount == 0
    {
      agreements, hasPaid, contributions := map[], map[], map[];
      agreementCount := 0;
    }

    /**
     * `init` as written: public and unguarded, so it may be called again at
     * any time, when it sets the counter back to zero.
     */
    method Init()
      modifies this
      ensures agreementCount == 0
      ensures agreements == old(agreements) && hasPaid == old(hasPaid) && contributions == old(contributions)
    {
      agreementCount := 0;
    }

    // ---- views ----

    /** The record stored under `id`, or the all-zero record. */
    function StoredAgreement(id: Digest): (a: Agreement)
      reads this
      ensures id in agreements ==> a == agreements[id]
      ensures id !in agreements ==> a == EMPTY_AGREEMENT
    {
      if id in agreements then agreements[id] else EMPTY_AGREEMENT
    }

    /** `get_agreement`: total, payee, collected, completed, participants, share. */
    function GetAgreement(id: Digest): (r: (U256, Address, U256, bool, U256, U256))
      reads this
      ensures id !in agreements ==> r == (0, ZERO_ADDRESS, 0, false, 0, 0)
      ensures id in agreements ==>
        var a := agreements[id];
        r == (a.totalAmount, a.payee, a.collected, a.completed, a.participantCount, a.sharePerParticipant)
    {
      var a := StoredAgreement(id);
      (a.totalAmount, a.payee, a.collected, a.completed, a.participantCount, a.sharePerParticipant)
    }

    /** `has_participant_paid`: false for a pair never written. */
    function HasParticipantPaid(id: Digest, participant: Address): (paid: bool)
      reads this
      ensures paid <==> (id, participant) in hasPaid && hasPaid[(id, participant)]
    {
      if (id, participant) in hasPaid then hasPaid[(id, participant)] else false
    }

    /** `get_contribution`: zero for a pair never written. */
    function GetContribution(id: Digest, participant: Address): (amount: U256)
      reads this
      ensures (id, participant) in contributions ==> amount == contributions[(id, participant)]
      ensures (id, participant) !in contributions ==> amount == 0
    {
      if (id, participant) in contributions then contributions[(id, participant)] else 0
    }

    /**
     * `get_agreement_count`: the counter, which in a valid state is the
     * number of agreements stored.
     */
    function GetAgreementCount(): (count: U256)
      reads this
      ensures count == agreementCount
      ensures Valid() ==> count == |agreements|
    {
      IdsBelowCount(agreementCount);
      assert Valid() ==> agreements.Keys == IdsBelow(agreementCount);
      agreementCount
    }

    // ---- operations ----

    /**
     * `create_agreement`: rejects a zero count or total, otherwise stores a
     * fresh record under the id of the current counter and advances it.
     */
    method CreateAgreement(participantCount: U256, totalAmount: U256, payee: Address, timestamp: U256)
      returns (res: Result<Digest>)
      modifies this
      ensures participantCount == 0 || totalAmount == 0 ==>
        res == Err(InvalidParameters) && unchanged(this)
      ensures participantCount > 0 && totalAmount > 0 ==>
        && res == Ok(HashId(old(agreementCount)))
        && agreements == old(agreements)[res.value := Agreement(
             res.value, participantCount, totalAmount, payee, 0, false, timestamp,
             Share(totalAmount, participantCount))]
        && agreementCount == WrappingAdd(old(agreementCount), 1)
        && hasPaid == old(hasPaid) && contributions == old(contributions)
      ensures old(Valid()) && res.Ok? ==> res.value !in old(agreements)
      ensures old(Valid()) && old(agreementCount) < MAX_U256 ==> Valid()
    {
      if participantCount == 0 || totalAmount == 0 {
        return Err(InvalidParameters);
      }
      var count := agreementCount;
      var id := HashId(count);
      var share := Share(totalAmount, participantCount);
      agreements := agreements[id := Agreement(id, participantCount, totalAmount, payee, 0, false, timestamp, share)];
      agreementCount := WrappingAdd(count, 1);
      res := Ok(id);
      if old(Valid()) {
        CreateKeepsConsistent(old(agreements), hasPaid, contributions, count, agreements[id]);
        CreateKeepsCollected(old(agreements), contributions, agreements[id]);
      }
    }

    /**
     * `contribute`: the guards run in the order not found, completed,
     * already paid, short; on success the caller's payment is recorded and
     * added to `collected`, and when that reaches the total the agreement is
     * marked completed and all of `collected` goes to the payee. A failed
     * payout reverts every write of the call.
     */
    method Contribute(sender: Address, agreementId: Digest, amount: U256, transferOk: bool)
      returns (res: Result<Option<Payout>>)
      modifies this
      ensures var a := old(StoredAgreement(agreementId));
        a.payee == ZERO_ADDRESS ==> res == Err(AgreementNotFound)
      ensures var a := old(StoredAgreement(agreementId));
        a.payee != ZERO_ADDRESS && a.completed ==> res == Err(AgreementAlreadyCompleted)
      ensures var a := old(StoredAgreement(agreementId));
        a.payee != ZERO_ADDRESS && !a.completed && old(HasParticipantPaid(agreementId, sender)) ==>
          res == Err(AlreadyPaid)
      ensures var a := old(StoredAgreement(agreementId));
        a.payee != ZERO_ADDRESS && !a.completed && !old(HasParticipantPaid(agreementId, sender))
        && amount < a.sharePerParticipant ==>
          res == Err(InsufficientContribution)
      ensures var a := old(StoredAgreement(agreementId));
        var collected := WrappingAdd(a.collected, amount);
        a.payee != ZERO_ADDRESS && !a.completed && !old(HasParticipantPaid(agreementId, sender))
        && amount >= a.sharePerParticipant ==>
          if collected >= a.totalAmount && !transferOk then res == Err(TransferFailed)
          else res == Ok(if collected >= a.totalAmount then Some(Payout(a.payee, collected)) else None)
      ensures res.Err? ==> unchanged(this)
      ensures res.Ok? ==>
        var a := old(StoredAgreement(agreementId));
        var collected := WrappingAdd(a.collected, amount);
        && hasPaid == old(hasPaid)[(agreementId, sender) := true]
        && contributions == old(contributions)[(agreementId, sender) := amount]
        && agreements == old(agreements)[agreementId := a.(collected := collected, completed := collected >= a.totalAmount)]
        && agreementCount == old(agreementCount)
      ensures old(Valid()) ==> Valid()
    {
      var agreement := StoredAgreement(agreementId);
      if agreement.payee == ZERO_ADDRESS {
        return Err(AgreementNotFound);
      }
      if agreement.completed {
        return Err(AgreementAlreadyCompleted);
      }
      if HasParticipantPaid(agreementId, sender) {
        return Err(AlreadyPaid);
      }
      if amount < agreement.sharePerParticipant {
        return Err(InsufficientContribution);
      }
      // Everything the call writes, kept so that a failed payout can revert it.
      var agreements0, hasPaid0, contributions0 := agreements, hasPaid, contributions;

      hasPaid := hasPaid[(agreementId, sender) := true];
      contributions := contributions[(agreementId, sender) := amount];
      var collected := WrappingAdd(agreement.collected, amount);
      var updated := agreement.(collected := collected);
      agreements := agreements[agreementId := updated];
      res := Ok(None);
      if collected >= agreement.totalAmount {
        updated := updated.(completed := true);
        agreements := agreements[agreementId := updated];
        assert agreements == agreements0[agreementId := updated];
        if !transferOk {
          agreements, hasPaid, contributions := agreements0, hasPaid0, contributions0;
          return Err(TransferFailed);
        }
        res := Ok(Some(Payout(agreement.payee, collected)));
      }

      if old(Valid()) {
        assert Valid() by {
          ContributeKeepsConsistent(agreements0, hasPaid0, contributions0, agreementCount, agreementId, sender, amount);
          ContributeKeepsCollected(agreements0, contributions0, agreementId, sender, amount);
        }
      }
    }
  }

  /** A creation writes under an id not yet used and keeps the storage shape. */
  lemma CreateKeepsConsistent(
    agreements: map<Digest, Agreement>,
    hasPaid: map<(Digest, Address), bool>,
    contributions: map<(Digest, Address), U256>,
    count: U256,
    a: Agreement)
    requires Consistent(agreements, hasPaid, contributions, count)
    requires a.id == HashId(count) && a.participantCount > 0 && a.totalAmount > 0
    requires a.sharePerParticipant == Share(a.totalAmount, a.participantCount)
    requires a.collected == 0 && !a.completed
    ensures a.id !in agreements
    ensures count < MAX_U256 ==> Consistent(agreements[a.id := a], hasPaid, contributions, count + 1)
  {
    IdsBelowNext(count);
    if count < MAX_U256 {
      var agreements' := agreements[a.id := a];
      assert agreements'.Keys == agreements.Keys + {a.id};
      CreateKeepsWellFormed(agreements, agreements', a);
      CreateKeepsShares(agreements, agreements', contributions, a);
    }
  }

  lemma CreateKeepsWellFormed(agreements: map<Digest, Agreement>, agreements': map<Digest, Agreement>, a: Agreement)
    requires forall j :: j in agreements ==> WellFormed(j, agreements[j])
    requires agreements' == agreements[a.id := a]
    requires a.participantCount > 0 && a.totalAmount > 0
    requires a.sharePerParticipant == Share(a.totalAmount, a.participantCount)
    requires a.collected == 0 && !a.completed
    ensures forall j :: j in agreements' ==> WellFormed(j, agreements'[j])
  {
  }

  lemma CreateKeepsShares(
    agreements: map<Digest, Agreement>, agreements': map<Digest, Agreement>,
    contributions: map<(Digest, Address), U256>, a: Agreement)
    requires forall k :: k in contributions ==>
      k.0 in agreements && contributions[k] >= agreements[k.0].sharePerParticipant
    requires agreements' == agreements[a.id := a] && a.id !in agreements
    ensures forall k :: k in contributions ==>
      k.0 in agreements' && contributions[k] >= agreements'[k.0].sharePerParticipant
  {
  }

  /** A new agreement has nothing recorded yet, which matches its zero `collected`. */
  lemma CreateKeepsCollected(
    agreements: map<Digest, Agreement>,
    contributions: map<(Digest, Address), U256>,
    a: Agreement)
    requires CollectedIsContributed(agreements, contributions)
    requires forall k :: k in contributions ==> k.0 in agreements
    requires a.id !in agreements && a.collected == 0
    ensures CollectedIsContributed(agreements[a.id := a], contributions)
  {
    assert ContributionsTo(contributions, a.id) == map[];
  }

  /**
   * A first contribution of at least the share to a stored, open agreement
   * keeps the storage shape.
   */
  lemma ContributeKeepsConsistent(
    agreements: map<Digest, Agreement>,
    hasPaid: map<(Digest, Address), bool>,
    contributions: map<(Digest, Address), U256>,
    count: U256,
    id: Digest, sender: Address, amount: U256)
    requires Consistent(agreements, hasPaid, contributions, count)
    requires id in agreements && !agreements[id].completed
    requires !((id, sender) in hasPaid && hasPaid[(id, sender)])
    requires amount >= agreements[id].sharePerParticipant
    ensures (id, sender) !in contributions
    ensures
      var a := agreements[id];
      var collected := WrappingAdd(a.collected, amount);
      Consistent(
        agreements[id := a.(collected := collected, completed := collected >= a.totalAmount)],
        hasPaid[(id, sender) := true],
        contributions[(id, sender) := amount],
        count)
  {
    var a := agreements[id];
    var collected := WrappingAdd(a.collected, amount);
    var a' := a.(collected := collected, completed := collected >= a.totalAmount);
    var agreements' := agreements[id := a'];
    var contributions' := contributions[(id, sender) := amount];
    ContributeKeepsWellFormed(agreements, agreements', id, a');
    ContributeKeepsShares(agreements, agreements', contributions, contributions', id, sender, amount);
    assert hasPaid[(id, sender) := true].Keys == contributions'.Keys;
  }

  lemma ContributeKeepsWellFormed(
    agreements: map<Digest, Agreement>, agreements': map<Digest, Agreement>, id: Digest, a': Agreement)
    requires forall j :: j in agreements ==> WellFormed(j, agreements[j])
    requires id in agreements && agreements' == agreements[id := a']
    requires a' == agreements[id].(collected := a'.collected, completed := a'.collected >= agreements[id].totalAmount)
    ensures agreements'.Keys == agreements.Keys
    ensures forall j :: j in agreements' ==> WellFormed(j, agreements'[j])
  {
  }

  lemma ContributeKeepsShares(
    agreements: map<Digest, Agreement>, agreements': map<Digest, Agreement>,
    contributions: map<(Digest, Address), U256>, contributions': map<(Digest, Address), U256>,
    id: Digest, sender: Address, amount: U256)
    requires forall k :: k in contributions ==>
      k.0 in agreements && contributions[k] >= agreements[k.0].sharePerParticipant
    requires id in agreements && id in agreements' && agreements' == agreements[id := agreements'[id]]
    requires agreements'[id].sharePerParticipant == agreements[id].sharePerParticipant
    requires amount >= agreements[id].sharePerParticipant
    requires contributions' == contributions[(id, sender) := amount]
    ensures forall k :: k in contributions' ==>
      k.0 in agreements' && contributions'[k] >= agreements'[k.0].sharePerParticipant
  {
  }

  /**
   * A first contribution is added both to `collected` (wrapping) and to the
   * sum of the agreement's recorded contributions, so the two stay related.
   */
  lemma ContributeKeepsCollected(
    agreements: map<Digest, Agreement>,
    contributions: map<(Digest, Address), U256>,
    id: Digest, sender: Address, amount: U256)
    requires CollectedIsContributed(agreements, contributions)
    requires id in agreements && (id, sender) !in contributions
    ensures
      var a := agreements[id];
      var collected := WrappingAdd(a.collected, amount);
      CollectedIsContributed(
        agreements[id := a.(collected := collected, completed := collected >= a.totalAmount)],
        contributions[(id, sender) := amount])
  {
    var a := agreements[id];
    var collected := WrappingAdd(a.collected, amount);
    var agreements' := agreements[id := a.(collected := collected, completed := collected >= a.totalAmount)];
    var contributions' := contributions[(id, sender) := amount];
    forall j | j in agreements' ensures agreements'[j].collected == Truncate(Contributed(contributions', j)) {
      CollectedAt(agreements[j], agreements'[j], contributions, id, sender, amount, j);
    }
  }

  lemma CollectedAt(
    before: Agreement, after: Agreement,
    contributions: map<(Digest, Address), U256>,
    id: Digest, sender: Address, amount: U256, j: Digest)
    requires (id, sender) !in contributions
    requires before.collected == Truncate(Contributed(contributions, j))
    requires j == id ==> after.collected == WrappingAdd(before.collected, amount)
    requires j != id ==> after == before
    ensures after.collected == Truncate(Contributed(contributions[(id, sender) := amount], j))
  {
    RecordContribution(contributions, id, sender, amount, j);
    WrappedSum(before.collected, after.collected, Contributed(contributions, j),
      Contributed(contributions[(id, sender) := amount], j), if j == id then amount else 0);
  }

  /** Adding the same amount to a sum and to its wrapped value keeps them related. */
  lemma WrappedSum(collected: U256, collected': U256, sum: nat, sum': nat, amount: U256)
    requires collected == Truncate(sum) && sum' == sum + amount
    requires collected' == WrappingAdd(collected, amount)
    ensures collected' == Truncate(sum')
  {
    ModuloAdd(sum, amount);
  }

  /** Recording a first contribution adds it to its own agreement's sum only. */
  lemma RecordContribution(contributions: map<(Digest, Address), U256>, id: Digest, sender: Address, amount: U256, j: Digest)
    requires (id, sender) !in contributions
    ensures MapSums.Sum(ContributionsTo(contributions[(id, sender) := amount], j))
         == MapSums.Sum(ContributionsTo(contributions, j)) + (if j == id then amount else 0)
  {
    var after := ContributionsTo(contributions[(id, sender) := amount], j);
    var before := ContributionsTo(contributions, j);
    if j == id {
      assert after == before[(id, sender) := amount];
      MapSums.SumUpdate(before, (id, sender), amount);
    } else {
      assert after == before;
    }
  }

  lemma ModuloAdd(x: nat, y: nat)
    ensures (x % MODULUS + y) % MODULUS == (x + y) % MODULUS
  {
    var q := x / MODULUS;
    assert x == q * MODULUS + x % MODULUS;
  }

  // ---- client scenarios ----

  /**
   * Three participants splitting 100: the share is 33, each pays 34, and the
   * third payment completes the agreement and sends all 102 to the payee.
   */
  method ThreeWaySplit(payee: Address, alice: Address, bob: Address, carol: Address)
    returns (share: U256, first: Result<Option<Payout>>, second: Result<Option<Payout>>,
             third: Result<Option<Payout>>)
    requires payee != ZERO_ADDRESS && alice != bob && bob != carol && alice != carol
    ensures share == 33
    ensures first == Ok(None) && second == Ok(None)
    ensures third == Ok(Some(Payout(payee, 102)))
  {
    var c, id;
    c, id, share, first, second := TwoOfThreePaid(payee, alice, bob, carol);
    third := c.Contribute(carol, id, 34, true);
  }

  /** The first two payments of `ThreeWaySplit`. */
  method TwoOfThreePaid(payee: Address, alice: Address, bob: Address, carol: Address)
    returns (c: CostSplitter, id: Digest, share: U256, first: Result<Option<Payout>>, second: Result<Option<Payout>>)
    requires payee != ZERO_ADDRESS && alice != bob && alice != carol && bob != carol
    ensures fresh(c)
    ensures share == 33 && first == Ok(None) && second == Ok(None)
    ensures c.StoredAgreement(id) == Agreement(id, 3, 100, payee, 68, false, 0, 33)
    ensures !c.HasParticipantPaid(id, carol)
  {
    c, id, share, first := OneOfThreePaid(payee, alice);
    second := c.Contribute(bob, id, 34, true);
  }

  /** The first payment of `ThreeWaySplit`. */
  method OneOfThreePaid(payee: Address, alice: Address)
    returns (c: CostSplitter, id: Digest, share: U256, first: Result<Option<Payout>>)
    requires payee != ZERO_ADDRESS
    ensures fresh(c)
    ensures share == 33 && first == Ok(None)
    ensures c.StoredAgreement(id) == Agreement(id, 3, 100, payee, 34, false, 0, 33)
    ensures c.hasPaid == map[(id, alice) := true]
  {
    c := new CostSplitter();
    var created := c.CreateAgreement(3, 100, payee, 0);
    id := created.value;
    share := c.GetAgreement(id).5;
    first := c.Contribute(alice, id, 34, true);
  }

  /**
   * An overpayment counts in full: a single payer of 150 towards 100
   * completes the agreement, all 150 go to the payee, and a later payer is
   * turned away.
   */
  method CompletedAgreementIsClosed(payee: Address, alice: Address, bob: Address)
    returns (paid: Result<Option<Payout>>, late: Result<Option<Payout>>)
    requires payee != ZERO_ADDRESS
    ensures paid == Ok(Some(Payout(payee, 150)))
    ensures late == Err(AgreementAlreadyCompleted)
  {
    var c := new CostSplitter();
    var id := c.CreateAgreement(2, 100, payee, 0);
    paid := c.Contribute(alice, id.value, 150, true);
    late := c.Contribute(bob, id.value, 50, true);
  }

  /**
   * Creation is not idempotent: the same request made twice yields two
   * agreements under distinct ids, and the counter advances once per
   * success and not at all for a rejected request.
   */
  method RepeatedCreationGivesDistinctIds(payee: Address)
    returns (first: Result<Digest>, rejected: Result<Digest>, second: Result<Digest>, count: U256)
    ensures first.Ok? && second.Ok? && first.value != second.value
    ensures rejected == Err(InvalidParameters)
    ensures count == 2
  {
    var c := new CostSplitter();
    first := c.CreateAgreement(2, 100, payee, 0);
    rejected := c.CreateAgreement(0, 100, payee, 0);
    second := c.CreateAgreement(2, 100, payee, 0);
    count := c.GetAgreementCount();
    HashIdDistinct(0, 1);
  }

  /**
   * A short payment is refused, and a participant who has paid cannot pay
   * again.
   */
  method ShortAndRepeatedContributions(payee: Address, alice: Address, bob: Address)
    returns (short: Result<Option<Payout>>, paid: Result<Option<Payout>>, again: Result<Option<Payout>>)
    requires payee != ZERO_ADDRESS && alice != bob
    ensures short == Err(InsufficientContribution)
    ensures paid == Ok(None)
    ensures again == Err(AlreadyPaid)
  {
    var c := new CostSplitter();
    var id := c.CreateAgreement(2, 100, payee, 0);
    short := c.Contribute(bob, id.value, 49, true);
    paid := c.Contribute(alice, id.value, 50, true);
    again := c.Contribute(alice, id.value, 50, true);
  }

  /** An agreement created with the zero address as payee can never be paid into. */
  method ZeroPayeeIsNotFound(alice: Address) returns (created: Result<Digest>, res: Result<Option<Payout>>)
    ensures created.Ok?
    ensures res == Err(AgreementNotFound)
  {
    var c := new CostSplitter();
    created := c.CreateAgreement(1, 100, ZERO_ADDRESS, 0);
    res := c.Contribute(alice, created.value, 100, true);
  }

  /**
   * A completing payment whose payout fails is undone entirely: the payer
   * is not marked as paid, nothing is recorded or collected, and the
   * agreement stays open.
   */
  method FailedPayoutReverts(payee: Address, alice: Address)
    returns (res: Result<Option<Payout>>, paid: bool, recorded: U256, collected: U256, completed: bool)
    requires payee != ZERO_ADDRESS
    ensures res == Err(TransferFailed)
    ensures !paid && recorded == 0 && collected == 0 && !completed
  {
    var c := new CostSplitter();
    var id := c.CreateAgreement(1, 100, payee, 0);
    res := c.Contribute(alice, id.value, 100, false);
    paid := c.HasParticipantPaid(id.value, alice);
    recorded := c.GetContribution(id.value, alice);
    var view := c.GetAgreement(id.value);
    collected, completed := view.2, view.3;
  }

  /**
   * Calling the unguarded `init` again sets the counter back, so the next
   * agreement reuses the id of an open one: its record is replaced with
   * nothing collected, while the earlier participant's payment stays
   * recorded and the participant is refused as having already paid.
   */
  method ReinitOverwritesAgreement(payee: Address, other: Address, alice: Address)
    returns (first: Result<Digest>, second: Result<Digest>, retry: Result<Option<Payout>>,
             collected: U256, recorded: U256)
    requires payee != ZERO_ADDRESS && other != ZERO_ADDRESS
    ensures first.Ok? && second == first
    ensures retry == Err(AlreadyPaid)
    ensures collected == 0 && recorded == 50
  {
    var c := new CostSplitter();
    first := c.CreateAgreement(2, 100, payee, 0);
    var paid := c.Contribute(alice, first.value, 50, true);
    c.Init();
    second := c.CreateAgreement(2, 100, other, 0);
    retry := c.Contribute(alice, second.value, 50, true);
    collected := c.GetAgreement(second.value).2;
    recorded := c.GetContribution(second.value, alice);
  }
}
