/** The savings handlers over the account collection, keyed by the owning
    user: deposit (an upsert that adds to the total and logs the
    transaction), guarded withdrawal, and two read-only lookups. */
module SavingController {
  import opened Common
  import opened SavingModel
  import opened UserModel

  const MSG_ROLE: string := "Access denied! Login With User Account"
  const MSG_NO_SAVING: string := "No saving found for this user"

  /** The checks deposit and withdrawal share, in the handlers' order:
      role, a truthy amount, a caller id, then a positive number. */
  function AmountGuard(caller: Caller, amount: Value, invalidMessage: string): (r: Option<Reply<real>>)
    ensures r.None? <==> caller.role == ROLE_USER && caller.id.Some? && amount.Num? && amount.n > 0.0
    ensures caller.role != ROLE_USER ==> r == Some(Fail(403, MSG_ROLE))
    ensures caller.role == ROLE_USER && Falsy(amount) ==> r == Some(Fail(400, "amount is required"))
    ensures r.Some? ==> r.value.Failure? && (r.value.code == 403 || r.value.code == 400)
  {
    if caller.role != ROLE_USER then Some(Fail(403, MSG_ROLE))
    else if Falsy(amount) then Some(Fail(400, "amount is required"))
    else if caller.id.None? then Some(Fail(400, "Access denied"))
    else if !amount.Num? || amount.n <= 0.0 then Some(Fail(400, invalidMessage))
    else None
  }

  /** The account after `$inc totalAmount`, `$set lastUpdated` and `$push` of a deposit. */
  function Deposited(a: Account, amount: real, now: int): Account
  {
    a.(totalAmount := a.totalAmount + amount, lastUpdated := now,
       transaction := a.transaction + [Transaction(Deposit, amount, now)])
  }

  /** The account after `totalAmount -= amount` and the push of a withdrawal. */
  function Withdrawn(a: Account, amount: real, now: int): Account
  {
    a.(totalAmount := a.totalAmount - amount, lastUpdated := now,
       transaction := a.transaction + [Transaction(Withdrawal, amount, now)])
  }

  /** A positive deposit keeps the total equal to the transactions' net. */
  lemma DepositKeepsConsistent(a: Account, amount: real, now: int)
    requires Consistent(a) && amount > 0.0
    ensures Consistent(Deposited(a, amount, now))
    ensures Deposited(a, amount, now).totalAmount == a.totalAmount + amount
  {
    NetAppend(a.transaction, Transaction(Deposit, amount, now));
  }

  /** A covered withdrawal keeps the total consistent and never negative. */
  lemma WithdrawalKeepsConsistent(a: Account, amount: real, now: int)
    requires Consistent(a) && 0.0 < amount <= a.totalAmount
    ensures Consistent(Withdrawn(a, amount, now))
    ensures Withdrawn(a, amount, now).totalAmount == a.totalAmount - amount >= 0.0
  {
    NetAppend(a.transaction, Transaction(Withdrawal, amount, now));
  }

  /** The account a deposit inserts takes its ipssNumber from the owner,
      so a schema-valid user yields a schema-valid account. */
  lemma InsertedAccountSchemaValid(owner: User, now: int)
    requires UserSchemaValid(owner) && owner.role == ROLE_USER
    ensures AccountSchemaValid(NewAccount(owner.id, owner.ipssNumber, now))
  {}

  const MSG_SERVER_ERROR: string := "Server Error"

  /** The value of a string of decimal digits. */
  function DigitsValue(s: string): nat
    requires forall i :: 0 <= i < |s| ==> IsDigit(s[i])
  {
    if s == [] then 0
    else
      assert IsDigit(s[|s| - 1]);
      10 * DigitsValue(s[..|s| - 1]) + (s[|s| - 1] as int - '0' as int)
  }

  /** The decimal numeral of a natural number, without leading zeros. */
  function Numeral(n: nat): (s: string)
    ensures |s| > 0 && forall i :: 0 <= i < |s| ==> IsDigit(s[i])
  {
    var last := ('0' as int + n % 10) as char;
    if n < 10 then [last] else Numeral(n / 10) + [last]
  }

  /** Reading a numeral gives back its number. */
  lemma {:induction false} DigitsValueOfNumeral(n: nat)
    ensures DigitsValue(Numeral(n)) == n
  {
    var s := Numeral(n);
    if n >= 10 {
      DigitsValueOfNumeral(n / 10);
      assert s[..|s| - 1] == Numeral(n / 10);
    }
  }

  /** The cast Mongoose applies to an `ipssNumber` filter before the query:
      a number stays, a boolean becomes 1 or 0, a non-empty string of
      decimal digits becomes its value; None is a cast error, which the
      handler's catch answers with 500. */
  function CastToNumber(v: Value): (r: Option<real>)
    ensures v.Num? ==> r == Some(v.n)
    ensures v.Str? && r.Some? ==> v.s != [] && r.value >= 0.0 && IsInteger(r.value)
    ensures (v.Str? && v.s != [] && forall i :: 0 <= i < |v.s| ==> IsDigit(v.s[i])) <==> v.Str? && r.Some?
  {
    match v
    case Num(n) => Some(n)
    case Bool(b) => Some(if b then 1.0 else 0.0)
    case Str(s) =>
      if s != [] && forall i :: 0 <= i < |s| ==> IsDigit(s[i]) then Some(DigitsValue(s) as real) else None
    case _ => None
  }

  /** `findOne({ ipssNumber })` compares the stored number with the cast request value. */
  predicate IpssMatches(a: Account, v: Value)
  {
    CastToNumber(v).Some? && a.ipssNumber.Some? && a.ipssNumber.value as real == CastToNumber(v).value
  }

  /** The numeral of an ipssNumber finds exactly the accounts the number finds. */
  lemma NumeralMatchesLikeNumber(a: Account, n: nat)
    ensures IpssMatches(a, Str(Numeral(n))) <==> IpssMatches(a, Num(n as real))
  {
    DigitsValueOfNumeral(n);
  }

  /** A string with a non-digit character fails the cast, whatever the accounts. */
  lemma NonNumeralFailsCast(s: string, i: nat)
    requires i < |s| && !IsDigit(s[i])
    ensures CastToNumber(Str(s)).None?
  {}

  class SavingsLedger {
    /** The saving collection; the key is the unique `userId`. */
    var accounts: map<UserId, Account>

    ghost predicate Valid()
      reads this
    {
      forall u :: u in accounts ==> accounts[u].userId == u && Consistent(accounts[u])
    }

    constructor ()
      ensures accounts == map[] && Valid()
    {
      accounts := map[];
    }

    /** The account a deposit updates, or the one its upsert inserts. */
    function AccountFor(u: UserId, owner: User, now: int): Account
      reads this
    {
      if u in accounts then accounts[u] else NewAccount(u, owner.ipssNumber, now)
    }

    /** `makeSaving`. The owner is looked up first; a missing owner makes
        the handler fail with 500 even when an account exists. */
    method MakeSaving(caller: Caller, body: Body, directory: seq<User>, now: int) returns (reply: Reply<real>)
      requires Valid()
      modifies this
      ensures Valid()
      ensures var amount := Field(body, "amount");
        && (AmountGuard(caller, amount, "Invalid deposit amount").Some? ==>
              reply == AmountGuard(caller, amount, "Invalid deposit amount").value)
        && (reply.Success? <==>
              AmountGuard(caller, amount, "Invalid deposit amount").None? && FindUser(directory, caller.id).Some?)
        && (reply.Success? ==>
              var u := caller.id.value;
              && accounts == old(accounts)[u := Deposited(old(AccountFor(u, FindUser(directory, caller.id).value, now)), amount.n, now)]
              && reply.code == 200
              && reply.value == accounts[u].totalAmount
              && reply.value == old(if u in accounts then accounts[u].totalAmount else 0.0) + amount.n)
      ensures reply.Failure? ==> accounts == old(accounts)
    {
      var amount := Field(body, "amount");
      var refused := AmountGuard(caller, amount, "Invalid deposit amount");
      if refused.Some? {
        return refused.value;
      }
      var owner := FindUser(directory, caller.id);
      if owner.None? {
        return Fail(500, "Server Error");
      }
      var u := caller.id.value;
      var before := AccountFor(u, owner.value, now);
      DepositKeepsConsistent(before, amount.n, now);
      accounts := accounts[u := Deposited(before, amount.n, now)];
      reply := Success(200, accounts[u].totalAmount);
    }

    /** `withdrawSaving`. An amount above the total is refused with no
        change, so the total never goes below zero. */
    method WithdrawSaving(caller: Caller, body: Body, now: int) returns (reply: Reply<real>)
      requires Valid()
      modifies this
      ensures Valid()
      ensures var amount := Field(body, "amount");
        && (AmountGuard(caller, amount, "Invalid withdrawal amount").Some? ==>
              reply == AmountGuard(caller, amount, "Invalid withdrawal amount").value)
        && (AmountGuard(caller, amount, "Invalid withdrawal amount").None? && caller.id.value !in old(accounts) ==>
              reply == Fail(404, MSG_NO_SAVING))
        && (AmountGuard(caller, amount, "Invalid withdrawal amount").None? && caller.id.value in old(accounts)
            && old(accounts)[caller.id.value].totalAmount < amount.n ==>
              reply == Fail(400, "Insufficient savings"))
        && (reply.Success? <==>
              && AmountGuard(caller, amount, "Invalid withdrawal amount").None?
              && caller.id.value in old(accounts)
              && amount.n <= old(accounts)[caller.id.value].totalAmount)
        && (reply.Success? ==>
              var u := caller.id.value;
              && accounts == old(accounts)[u := Withdrawn(old(accounts)[u], amount.n, now)]
              && reply.code == 200
              && reply.value == old(accounts)[u].totalAmount - amount.n >= 0.0)
      ensures reply.Failure? ==> accounts == old(accounts)
    {
      var amount := Field(body, "amount");
      var refused := AmountGuard(caller, amount, "Invalid withdrawal amount");
      if refused.Some? {
        return refused.value;
      }
      var u := caller.id.value;
      if u !in accounts {
        return Fail(404, MSG_NO_SAVING);
      }
      var saving := accounts[u];
      if saving.totalAmount < amount.n {
        return Fail(400, "Insufficient savings");
      }
      WithdrawalKeepsConsistent(saving, amount.n, now);
      accounts := accounts[u := Withdrawn(saving, amount.n, now)];
      reply := Success(200, accounts[u].totalAmount);
    }

    /** `getTransactions`: the caller's transaction list, any role. */
    method GetTransactions(caller: Caller) returns (reply: Reply<seq<Transaction>>)
      ensures reply.Success? <==> caller.id.Some? && caller.id.value in accounts
      ensures reply.Success? ==> reply.code == 200 && reply.value == accounts[caller.id.value].transaction
      ensures reply.Failure? ==> reply == Fail(404, MSG_NO_SAVING)
    {
      if caller.id.None? || caller.id.value !in accounts {
        return Fail(404, MSG_NO_SAVING);
      }
      reply := Success(200, accounts[caller.id.value].transaction);
    }

    /** `getUserSaving`: an admin looks an account up by ipssNumber. The
        presence check comes before the role check; any one matching
        account may be returned. */
    method GetUserSaving(caller: Caller, body: Body) returns (reply: Reply<Account>)
      ensures var ipss := Field(body, "ipssNumber");
        && (Falsy(ipss) ==> reply == Fail(400, "ipssNumber is required"))
        && (!Falsy(ipss) && caller.role != ROLE_ADMIN ==> reply == Fail(403, "Access denied!"))
        && (!Falsy(ipss) && caller.role == ROLE_ADMIN && CastToNumber(ipss).None? ==>
              reply == Fail(500, MSG_SERVER_ERROR))
        && (reply.Success? <==>
              !Falsy(ipss) && caller.role == ROLE_ADMIN && exists u :: u in accounts && IpssMatches(accounts[u], ipss))
        && (reply.Success? ==> reply.code == 200 && reply.value in accounts.Values && IpssMatches(reply.value, ipss))
        && (!Falsy(ipss) && caller.role == ROLE_ADMIN && CastToNumber(ipss).Some? && reply.Failure? ==>
              reply == Fail(404, MSG_NO_SAVING))
    {
      var ipss := Field(body, "ipssNumber");
      if Falsy(ipss) {
        return Fail(400, "ipssNumber is required");
      }
      if caller.role != ROLE_ADMIN {
        return Fail(403, "Access denied!");
      }
      if CastToNumber(ipss).None? {
        return Fail(500, MSG_SERVER_ERROR);
      }
      if u :| u in accounts && IpssMatches(accounts[u], ipss) {
        reply := Success(200, accounts[u]);
      } else {
        reply := Fail(404, MSG_NO_SAVING);
      }
    }
  }
}
