/**
 * The payment router contract (payment-router/src/lib.rs).
 *
 * Accounts deposit value into per-account balances; agents the owner has
 * authorised move part of their own balance into an escrowed payment, and
 * the payee completes it, receiving the amount less a fee in basis points.
 * What the ledger holds for its accounts is the sum of the balances plus
 * the amounts of the payments not yet completed; every operation changes
 * that total by a stated amount. The caller, the attached value, the block
 * time and the outcome of the withdrawal transfer are method parameters.
 */
module PaymentRouter {
  import opened Evm
  import opened IdentityGenerator
  import MapSums

  datatype Error =
    | Unauthorized
    | InsufficientBalance
    | PaymentNotFound
    | PaymentAlreadyCompleted
    | InvalidAmount
      /** The withdrawal transfer failed; its revert data is passed on. */
    | TransferFailed

  datatype Result<T> = Ok(value: T) | Err(error: Error)

  /** A `Payment` storage record. */
  datatype Payment = Payment(payer: Address, payee: Address, amount: U256, timestamp: U256, completed: bool)

  /** What storage yields for an id never written: every field zero. */
  const EMPTY_PAYMENT := Payment(ZERO_ADDRESS, ZERO_ADDRESS, 0, 0, false)

  /** 100% in basis points. */
  const BASIS_POINTS: U256 := 10000

  /**
   * The fee withheld when a payment of `amount` completes. At a rate of at
   * most 100% it never exceeds the amount, so the payee's share does not
   * underflow; while the product does not wrap it is the exact floor of
   * amount × rate / 10000.
   */
  function Fee(amount: U256, feePercentage: U256): (fee: U256)
    ensures feePercentage <= BASIS_POINTS ==> fee <= amount
    ensures amount * feePercentage < MODULUS ==> fee == amount * feePercentage / BASIS_POINTS
  {
    var fee := WrappingMul(amount, feePercentage) / BASIS_POINTS;
    FeeBound(amount, feePercentage, WrappingMul(amount, feePercentage));
    fee
  }

  lemma FeeBound(amount: nat, rate: nat, product: nat)
    requires product <= amount * rate
    ensures rate <= 10000 ==> product / 10000 <= amount
  {
    if rate <= 10000 {
      assert amount * rate <= amount * 10000;
    }
  }

  /** The amount each payment still holds in escrow: zero once completed. */
  function EscrowOf(p: Payment): nat {
    if p.completed then 0 else p.amount
  }

  ghost function Escrowed(payments: map<Digest, Payment>): map<Digest, nat> {
    map id | id in payments :: EscrowOf(payments[id])
  }

  /** The value a ledger holds for its accounts: balances plus escrow. */
  ghost function Held(balances: map<Address, U256>, payments: map<Digest, Payment>): nat {
    MapSums.Sum(balances) + MapSums.Sum(Escrowed(payments))
  }

  /** The payments are stored exactly under the ids issued from the counter. */
  ghost predicate IdsIssued(payments: map<Digest, Payment>, count: nat) {
    payments.Keys == IdsBelow(count)
  }

  /** Writing one payment record changes the escrow at that id only. */
  lemma EscrowedUpdate(payments: map<Digest, Payment>, id: Digest, p: Payment)
    ensures MapSums.Sum(Escrowed(payments[id := p])) + (if id in payments then EscrowOf(payments[id]) else 0)
         == MapSums.Sum(Escrowed(payments)) + EscrowOf(p)
  {
    EscrowedWrite(payments, id, p);
    MapSums.SumUpdate(Escrowed(payments), id, EscrowOf(p));
  }

  lemma EscrowedWrite(payments: map<Digest, Payment>, id: Digest, p: Payment)
    ensures Escrowed(payments[id := p]) == Escrowed(payments)[id := EscrowOf(p)]
  {
    var e, e' := Escrowed(payments), Escrowed(payments[id := p]);
    assert e'.Keys == e.Keys + {id};
  }

  /**
   * Writing `p` under `id` and `credit` at `account` changes the holdings by
   * the new escrow and balance less the old ones.
   */
  lemma HeldUpdate(balances: map<Address, U256>, payments: map<Digest, Payment>,
                   balances': map<Address, U256>, payments': map<Digest, Payment>,
                   account: Address, credit: U256, id: Digest, p: Payment)
    requires balances' == balances[account := credit] && payments' == payments[id := p]
    ensures Held(balances', payments')
          + (if account in balances then balances[account] else 0)
          + (if id in payments then EscrowOf(payments[id]) else 0)
         == Held(balances, payments) + credit + EscrowOf(p)
  {
    EscrowedUpdate(payments, id, p);
    MapSums.SumUpdate(balances, account, credit);
  }

  /** A payment stored under the current counter's id keeps every id issued. */
  lemma InitiateKeepsIssued(payments: map<Digest, Payment>, count: U256, p: Payment, payments': map<Digest, Payment>)
    requires IdsIssued(payments, count)
    requires payments' == payments[HashId(count) := p]
    ensures HashId(count) !in payments
    ensures IdsIssued(payments', count + 1)
  {
    IdsBelowNext(count);
    assert payments'.Keys == payments.Keys + {HashId(count)};
  }

  class PaymentRouter {
    var owner: Address
    var balances: map<Address, U256>
    var authorizedAgents: map<Address, bool>
    var payments: map<Digest, Payment>
    var paymentCount: U256
    var feePercentage: U256

    /**
     * The payments are stored exactly under the ids issued from the counter,
     * and the fee rate is at most 100%.
     */
    ghost predicate Valid()
      reads this`payments, this`paymentCount, this`feePercentage
    {
      IdsIssued(payments, paymentCount) && feePercentage <= BASIS_POINTS
    }

    ghost function Holdings(): nat
      reads this`balances, this`payments
    {
      Held(balances, payments)
    }

    /**
     * Deployment with the `init` call made once, by `sender`, at a fee rate
     * of at most 100%.
     */
    constructor (sender: Address, feePercentage: U256)
      requires feePercentage <= BASIS_POINTS
      ensures Valid() && Holdings() == 0
      ensures owner == sender && this.feePercentage == feePercentage
      ensures balances == map[] && authorizedAgents == map[] && payments == map[] && paymentCount == 0
    {
      owner := sender;
      this.feePercentage := feePercentage;
      balances, authorizedAgents, payments := map[], map[], map[];
      paymentCount := 0;
      new;
      assert Escrowed(payments) == map[];
    }

    /**
     * `init` as written: public and unguarded, so any caller may run it again
     * at any time, taking ownership, setting any fee rate (even one above
     * 100%) and setting the payment counter back to zero.
     */
    method Init(sender: Address, feePercentage: U256)
      modifies this
      ensures owner == sender && this.feePercentage == feePercentage && paymentCount == 0
      ensures balances == old(balances) && authorizedAgents == old(authorizedAgents) && payments == old(payments)
    {
      owner := sender;
      this.feePercentage := feePercentage;
      paymentCount := 0;
    }

    // ---- views ----

    /** `get_balance`: zero for an account never written. */
    function GetBalance(account: Address): (balance: U256)
      reads this
      ensures account in balances ==> balance == balances[account]
      ensures account !in balances ==> balance == 0
    {
      if account in balances then balances[account] else 0
    }

    /** `is_authorized`: false for an account never written. */
    function IsAuthorized(agent: Address): (authorized: bool)
      reads this
      ensures authorized <==> agent in authorizedAgents && authorizedAgents[agent]
    {
      if agent in authorizedAgents then authorizedAgents[agent] else false
    }

    /** The record stored under `id`, or the all-zero record. */
    function StoredPayment(id: Digest): (p: Payment)
      reads this
      ensures id in payments ==> p == payments[id]
      ensures id !in payments ==> p == EMPTY_PAYMENT
    {
      if id in payments then payments[id] else EMPTY_PAYMENT
    }

    /** `get_payment`: payer, payee, amount, timestamp, completed. */
    function GetPayment(id: Digest): (r: (Address, Address, U256, U256, bool))
      reads this
      ensures id !in payments ==> r == (ZERO_ADDRESS, ZERO_ADDRESS, 0, 0, false)
      ensures id in payments ==>
        var p := payments[id];
        r == (p.payer, p.payee, p.amount, p.timestamp, p.completed)
    {
      var p := StoredPayment(id);
      (p.payer, p.payee, p.amount, p.timestamp, p.completed)
    }

    /**
     * `get_payment_count`: the counter, which in a valid state is the number
     * of payments stored.
     */
    function GetPaymentCount(): (count: U256)
      reads this
      ensures count == paymentCount
      ensures Valid() ==> count == |payments|
    {
      IdsBelowCount(paymentCount);
      assert Valid() ==> payments.Keys == IdsBelow(paymentCount);
      paymentCount
    }

    /** `get_fee_percentage`: in a valid state, at most 100%. */
    function GetFeePercentage(): (rate: U256)
      reads this
      ensures rate == feePercentage
      ensures Valid() ==> rate <= BASIS_POINTS
    {
      feePercentage
    }

    // ---- operations ----

    /** `authorize_agent`: only the owner may grant an agent the right to pay. */
    method AuthorizeAgent(sender: Address, agent: Address) returns (res: Result<()>)
      modifies this
      ensures sender != old(owner) ==> res == Err(Unauthorized) && unchanged(this)
      ensures sender == old(owner) ==>
        && res == Ok(())
        && authorizedAgents == old(authorizedAgents)[agent := true]
        && owner == old(owner) && feePercentage == old(feePercentage)
        && balances == old(balances) && payments == old(payments) && paymentCount == old(paymentCount)
    {
      if sender != owner {
        return Err(Unauthorized);
      }
      authorizedAgents := authorizedAgents[agent := true];
      res := Ok(());
    }

    /** `revoke_agent`: only the owner may withdraw that right. */
    method RevokeAgent(sender: Address, agent: Address) returns (res: Result<()>)
      modifies this
      ensures sender != old(owner) ==> res == Err(Unauthorized) && unchanged(this)
      ensures sender == old(owner) ==>
        && res == Ok(())
        && authorizedAgents == old(authorizedAgents)[agent := false]
        && owner == old(owner) && feePercentage == old(feePercentage)
        && balances == old(balances) && payments == old(payments) && paymentCount == old(paymentCount)
    {
      if sender != owner {
        return Err(Unauthorized);
      }
      authorizedAgents := authorizedAgents[agent := false];
      res := Ok(());
    }

    /** `deposit`: credits the attached value to the caller. */
    method Deposit(sender: Address, amount: U256) returns (res: Result<()>)
      modifies this
      ensures amount == 0 ==> res == Err(InvalidAmount) && unchanged(this)
      ensures amount > 0 ==>
        && res == Ok(())
        && balances == old(balances)[sender := WrappingAdd(old(GetBalance(sender)), amount)]
        && owner == old(owner) && feePercentage == old(feePercentage)
        && authorizedAgents == old(authorizedAgents) && payments == old(payments)
        && paymentCount == old(paymentCount)
      ensures amount > 0 && old(GetBalance(sender)) + amount < MODULUS ==>
        Holdings() == old(Holdings()) + amount
      ensures old(Valid()) ==> Valid()
    {
      if amount == 0 {
        return Err(InvalidAmount);
      }
      var balance := GetBalance(sender);
      balances := balances[sender := WrappingAdd(balance, amount)];
      res := Ok(());
      MapSums.SumUpdate(old(balances), sender, WrappingAdd(balance, amount));
    }

    /**
     * `initiate_payment`: an authorised caller moves `amount` of its own
     * balance into a new payment to `payee`, stored under the id of the
     * current counter, which then advances.
     */
    method InitiatePayment(sender: Address, payee: Address, amount: U256, timestamp: U256)
      returns (res: Result<Digest>)
      modifies this
      ensures !old(IsAuthorized(sender)) ==> res == Err(Unauthorized) && unchanged(this)
      ensures old(IsAuthorized(sender)) && old(GetBalance(sender)) < amount ==>
        res == Err(InsufficientBalance) && unchanged(this)
      ensures old(IsAuthorized(sender)) && amount <= old(GetBalance(sender)) ==>
        && res == Ok(HashId(old(paymentCount)))
        && payments == old(payments)[res.value := Payment(sender, payee, amount, timestamp, false)]
        && balances == old(balances)[sender := old(GetBalance(sender)) - amount]
        && paymentCount == WrappingAdd(old(paymentCount), 1)
        && owner == old(owner) && feePercentage == old(feePercentage)
        && authorizedAgents == old(authorizedAgents)
      ensures res.Ok? ==> Holdings() + EscrowOf(old(StoredPayment(res.value))) == old(Holdings())
      ensures old(Valid()) && res.Ok? ==> res.value !in old(payments) && Holdings() == old(Holdings())
      ensures old(Valid()) && old(paymentCount) < MAX_U256 ==> Valid()
    {
      if !IsAuthorized(sender) {
        return Err(Unauthorized);
      }
      var payerBalance := GetBalance(sender);
      if payerBalance < amount {
        return Err(InsufficientBalance);
      }
      var count := paymentCount;
      var id := HashId(count);
      var payment := Payment(sender, payee, amount, timestamp, false);
      payments := payments[id := payment];
      balances := balances[sender := payerBalance - amount];
      paymentCount := WrappingAdd(count, 1);
      res := Ok(id);

      HeldUpdate(old(balances), old(payments), balances, payments, sender, payerBalance - amount, id, payment);
      if old(Valid()) {
        InitiateKeepsIssued(old(payments), count, payment, payments);
      }
    }

    /**
     * `complete_payment`: the payee of a stored, open payment takes the
     * amount less the fee at the current rate; the fee is credited to no
     * account.
     */
    method CompletePayment(sender: Address, paymentId: Digest) returns (res: Result<()>)
      modifies this
      ensures old(StoredPayment(paymentId)).payer == ZERO_ADDRESS ==>
        res == Err(PaymentNotFound) && unchanged(this)
      ensures var p := old(StoredPayment(paymentId));
        p.payer != ZERO_ADDRESS && p.completed ==> res == Err(PaymentAlreadyCompleted) && unchanged(this)
      ensures var p := old(StoredPayment(paymentId));
        p.payer != ZERO_ADDRESS && !p.completed && sender != p.payee ==> res == Err(Unauthorized) && unchanged(this)
      ensures var p := old(StoredPayment(paymentId));
        p.payer != ZERO_ADDRESS && !p.completed && sender == p.payee ==>
          && res == Ok(())
          && payments == old(payments)[paymentId := p.(completed := true)]
          && balances == old(balances)[p.payee :=
               WrappingAdd(old(GetBalance(p.payee)), WrappingSub(p.amount, Fee(p.amount, old(feePercentage))))]
          && owner == old(owner) && feePercentage == old(feePercentage)
          && authorizedAgents == old(authorizedAgents) && paymentCount == old(paymentCount)
      ensures var p := old(StoredPayment(paymentId));
        res.Ok? && feePercentage <= BASIS_POINTS
          && old(GetBalance(p.payee)) + (p.amount - Fee(p.amount, feePercentage)) < MODULUS ==>
          Holdings() + Fee(p.amount, feePercentage) == old(Holdings())
      ensures old(Valid()) ==> Valid()
    {
      var payment := StoredPayment(paymentId);
      if payment.payer == ZERO_ADDRESS {
        return Err(PaymentNotFound);
      }
      if payment.completed {
        return Err(PaymentAlreadyCompleted);
      }
      if sender != payment.payee {
        return Err(Unauthorized);
      }
      var fee := Fee(payment.amount, feePercentage);
      var payeeAmount := WrappingSub(payment.amount, fee);
      var payeeBalance := GetBalance(payment.payee);
      balances := balances[payment.payee := WrappingAdd(payeeBalance, payeeAmount)];
      payments := payments[paymentId := payment.(completed := true)];
      res := Ok(());

      HeldUpdate(old(balances), old(payments), balances, payments,
                 payment.payee, WrappingAdd(payeeBalance, payeeAmount), paymentId, payment.(completed := true));
    }

    /**
     * `withdraw`: debits the caller before sending it the value; a failed
     * transfer reverts the debit.
     */
    method Withdraw(sender: Address, amount: U256, transferOk: bool) returns (res: Result<()>)
      modifies this
      ensures old(GetBalance(sender)) < amount ==> res == Err(InsufficientBalance) && unchanged(this)
      ensures amount <= old(GetBalance(sender)) && !transferOk ==> res == Err(TransferFailed) && unchanged(this)
      ensures amount <= old(GetBalance(sender)) && transferOk ==>
        && res == Ok(())
        && balances == old(balances)[sender := old(GetBalance(sender)) - amount]
        && owner == old(owner) && feePercentage == old(feePercentage)
        && authorizedAgents == old(authorizedAgents) && payments == old(payments)
        && paymentCount == old(paymentCount)
      ensures res.Ok? ==> Holdings() + amount == old(Holdings())
      ensures old(Valid()) ==> Valid()
    {
      var balance := GetBalance(sender);
      if balance < amount {
        return Err(InsufficientBalance);
      }
      var balances0 := balances;
      balances := balances[sender := balance - amount];
      if !transferOk {
        balances := balances0;
        return Err(TransferFailed);
      }
      res := Ok(());
      MapSums.SumUpdate(old(balances), sender, balance - amount);
    }
  }

  // ---- client scenarios ----

  /**
   * An overdraft is refused and a failed transfer refunds the debit: after
   * depositing 100, withdrawing 150 and then 100 with a failing transfer,
   * the balance is still 100.
   */
  method OverdraftAndFailedWithdrawal(owner: Address, user: Address)
    returns (overdraft: Result<()>, failed: Result<()>, balance: U256)
    ensures overdraft == Err(InsufficientBalance) && failed == Err(TransferFailed)
    ensures balance == 100
  {
    var r := new PaymentRouter(owner, 0);
    var deposit := r.Deposit(user, 100);
    overdraft := r.Withdraw(user, 150, true);
    failed := r.Withdraw(user, 100, false);
    balance := r.GetBalance(user);
  }

  /**
   * A payment of 100 at a 5% rate: the payer keeps 900 of a 1000 deposit,
   * the payee is credited 95, and a second completion is refused.
   */
  method PaymentWithFee(owner: Address, agent: Address, payee: Address)
    returns (payerBalance: U256, payeeBalance: U256, again: Result<()>)
    requires owner != agent && agent != payee && payee != ZERO_ADDRESS && agent != ZERO_ADDRESS
    ensures payerBalance == 900 && payeeBalance == 95
    ensures again == Err(PaymentAlreadyCompleted)
  {
    var r := new PaymentRouter(owner, 500);
    var auth := r.AuthorizeAgent(owner, agent);
    var deposit := r.Deposit(agent, 1000);
    var id := r.InitiatePayment(agent, payee, 100, 0);
    var done := r.CompletePayment(payee, id.value);
    again := r.CompletePayment(payee, id.value);
    payerBalance := r.GetBalance(agent);
    payeeBalance := r.GetBalance(payee);
  }

  /**
   * Only the owner grants the right to pay, and revoking it takes it away:
   * a stranger can neither authorise itself nor pay, and a revoked agent
   * cannot pay either; no payment is recorded.
   */
  method AgentsAreOwnerControlled(owner: Address, agent: Address, stranger: Address)
    returns (selfGrant: Result<()>, strangerPays: Result<Digest>, revokedPays: Result<Digest>, count: U256)
    requires stranger != owner
    ensures selfGrant == Err(Unauthorized)
    ensures strangerPays == Err(Unauthorized) && revokedPays == Err(Unauthorized)
    ensures count == 0
  {
    var r := new PaymentRouter(owner, 0);
    selfGrant := r.AuthorizeAgent(stranger, stranger);
    var deposit := r.Deposit(stranger, 10);
    strangerPays := r.InitiatePayment(stranger, owner, 10, 0);
    var grant := r.AuthorizeAgent(owner, agent);
    var revoke := r.RevokeAgent(owner, agent);
    revokedPays := r.InitiatePayment(agent, owner, 0, 0);
    count := r.GetPaymentCount();
  }

  /**
   * Calling the unguarded `init` again hands the contract to the caller: the
   * newcomer can authorise agents and the deploying owner no longer can.
   */
  method ReinitSeizesOwnership(owner: Address, attacker: Address)
    returns (attackerGrant: Result<()>, ownerGrant: Result<()>)
    requires owner != attacker
    ensures attackerGrant == Ok(()) && ownerGrant == Err(Unauthorized)
  {
    var r := new PaymentRouter(owner, 0);
    r.Init(attacker, 0);
    attackerGrant := r.AuthorizeAgent(attacker, attacker);
    ownerGrant := r.AuthorizeAgent(owner, owner);
  }

  /**
   * Calling `init` again sets the counter back, so the next payment reuses
   * the id of an open one and overwrites it: the 100 the agent escrowed for
   * the payee is gone from the ledger, and the payee can no longer collect.
   */
  method ReinitOverwritesPayment(owner: Address, agent: Address, payee: Address, attacker: Address)
    returns (first: Result<Digest>, second: Result<Digest>, collect: Result<()>,
             agentBalance: U256, stored: (Address, Address, U256, U256, bool))
    requires owner != attacker && agent != ZERO_ADDRESS && attacker != ZERO_ADDRESS
    requires payee != attacker
    ensures first.Ok? && second == first
    ensures collect == Err(Unauthorized)
    ensures agentBalance == 0 && stored == (attacker, attacker, 0, 0, false)
  {
    var r;
    r, first := OpenPayment(owner, agent, payee);
    r.Init(attacker, 0);
    var attackerGrant := r.AuthorizeAgent(attacker, attacker);
    second := r.InitiatePayment(attacker, attacker, 0, 0);
    collect := r.CompletePayment(payee, first.value);
    agentBalance := r.GetBalance(agent);
    stored := r.GetPayment(first.value);
  }

  /** The set-up of `ReinitOverwritesPayment`: the agent escrows 100 for the payee. */
  method OpenPayment(owner: Address, agent: Address, payee: Address)
    returns (r: PaymentRouter, first: Result<Digest>)
    requires agent != ZERO_ADDRESS
    ensures fresh(r)
    ensures first == Ok(HashId(0))
    ensures r.payments == map[HashId(0) := Payment(agent, payee, 100, 0, false)]
    ensures r.GetBalance(agent) == 0
  {
    r := new PaymentRouter(owner, 0);
    var grant := r.AuthorizeAgent(owner, agent);
    var deposit := r.Deposit(agent, 100);
    first := r.InitiatePayment(agent, payee, 100, 0);
  }

  /**
   * `init` accepts any fee rate. At 200% the fee on a payment of 100 is 200,
   * `amount - fee` wraps, and the payee is credited 2^256 - 100.
   */
  method OverRateWrapsPayeeCredit(owner: Address, agent: Address, payee: Address)
    returns (payeeBalance: U256)
    requires owner != agent && agent != payee && payee != ZERO_ADDRESS && agent != ZERO_ADDRESS
    ensures payeeBalance == MODULUS - 100
  {
    var r := new PaymentRouter(owner, 0);
    r.Init(owner, 20000);
    var grant := r.AuthorizeAgent(owner, agent);
    var deposit := r.Deposit(agent, 100);
    var id := r.InitiatePayment(agent, payee, 100, 0);
    var done := r.CompletePayment(payee, id.value);
    payeeBalance := r.GetBalance(payee);
  }
}
