/** The ATM simulator: a PIN to balance map, a login of at most three PIN
    attempts, and balance, deposit and withdraw on the logged-in account.
    Balances are whole cents. */
module Atm {
  import opened Store

  const MaxAttempts := 3

  /** The `ACCOUNTS` the script starts with. */
  const InitialAccounts: map<string, int> := map["1234" := 150050, "4321" := 50000, "9999" := 1000000]

  /** The accounts and the PIN of the logged-in account, if any. */
  datatype Session = Session(accounts: map<string, int>, currentPin: Option<string>)

  /** A logged-in PIN is always an account's, and no balance is negative. */
  ghost predicate ValidSession(s: Session)
  {
    && (s.currentPin.Some? ==> s.currentPin.value in s.accounts)
    && forall pin :: pin in s.accounts ==> s.accounts[pin] >= 0
  }

  /** Only the account `pin` may differ between the two maps. */
  ghost predicate OnlyAccountChanged(m: map<string, int>, m': map<string, int>, pin: string)
  {
    forall p :: p != pin ==> (p in m <==> p in m') && (p in m ==> m[p] == m'[p])
  }

  /** `check_balance`: nothing without a login, else the account's balance. */
  function Balance(s: Session): (r: Option<int>)
    requires ValidSession(s)
    ensures r.Some? <==> s.currentPin.Some?
    ensures r.Some? ==> r.value == s.accounts[s.currentPin.value] && r.value >= 0
  {
    match s.currentPin
    case None => None
    case Some(pin) => Some(s.accounts[pin])
  }

  datatype DepositOutcome = DepositNotLoggedIn | NonPositiveDeposit | Deposited

  /** `deposit` with the entered amount as a parameter: without a login
      nothing happens; a non-positive amount is refused; otherwise the
      logged-in account, and no other, gains the amount. */
  function Deposit(s: Session, amount: int): (r: (DepositOutcome, Session))
    requires ValidSession(s)
    ensures r.0 == DepositNotLoggedIn <==> s.currentPin.None?
    ensures r.0 == Deposited <==> s.currentPin.Some? && amount > 0
    ensures !r.0.Deposited? ==> r.1 == s
    ensures r.0.Deposited? ==>
      && var pin := s.currentPin.value;
      && r.1.currentPin == s.currentPin
      && pin in r.1.accounts && r.1.accounts[pin] == s.accounts[pin] + amount
      && OnlyAccountChanged(s.accounts, r.1.accounts, pin)
    ensures ValidSession(r.1)
  {
    match s.currentPin
    case None => (DepositNotLoggedIn, s)
    case Some(pin) =>
      if amount > 0 then (Deposited, s.(accounts := s.accounts[pin := s.accounts[pin] + amount]))
      else (NonPositiveDeposit, s)
  }

  datatype WithdrawOutcome = WithdrawNotLoggedIn | NonPositiveWithdrawal | InsufficientFunds | Withdrawn

  /** `withdraw` with the entered amount as a parameter: it goes through iff
      someone is logged in and `0 < amount <= balance`; then that account,
      and no other, loses exactly the amount. */
  function Withdraw(s: Session, amount: int): (r: (WithdrawOutcome, Session))
    requires ValidSession(s)
    ensures r.0 == WithdrawNotLoggedIn <==> s.currentPin.None?
    ensures r.0 == Withdrawn <==>
      s.currentPin.Some? && 0 < amount <= s.accounts[s.currentPin.value]
    ensures r.0 == NonPositiveWithdrawal <==> s.currentPin.Some? && amount <= 0
    ensures r.0 == InsufficientFunds <==>
      s.currentPin.Some? && 0 < amount && amount > s.accounts[s.currentPin.value]
    ensures !r.0.Withdrawn? ==> r.1 == s
    ensures r.0.Withdrawn? ==>
      && var pin := s.currentPin.value;
      && r.1.currentPin == s.currentPin
      && pin in r.1.accounts && r.1.accounts[pin] == s.accounts[pin] - amount
      && OnlyAccountChanged(s.accounts, r.1.accounts, pin)
    ensures ValidSession(r.1)
  {
    match s.currentPin
    case None => (WithdrawNotLoggedIn, s)
    case Some(pin) =>
      var balance := s.accounts[pin];
      if amount <= 0 then (NonPositiveWithdrawal, s)
      else if amount > balance then (InsufficientFunds, s)
      else (Withdrawn, s.(accounts := s.accounts[pin := balance - amount]))
  }

  /** Withdrawing what was just deposited gives back the session as it was. */
  lemma WithdrawUndoesDeposit(s: Session, amount: int)
    requires ValidSession(s) && Deposit(s, amount).0 == Deposited
    ensures Withdraw(Deposit(s, amount).1, amount) == (Withdrawn, s)
  {
    var pin := s.currentPin.value;
    var s' := Deposit(s, amount).1;
    assert s'.accounts[pin := s'.accounts[pin] - amount] == s.accounts;
  }

  /** Depositing what was just withdrawn gives back the session as it was. */
  lemma DepositUndoesWithdraw(s: Session, amount: int)
    requires ValidSession(s) && Withdraw(s, amount).0 == Withdrawn
    ensures Deposit(Withdraw(s, amount).1, amount) == (Deposited, s)
  {
    var pin := s.currentPin.value;
    var s' := Withdraw(s, amount).1;
    assert s'.accounts[pin := s'.accounts[pin] + amount] == s.accounts;
  }

  class AutomatedTellerMachine {
    var accounts: map<string, int>
    var currentPin: Option<string>

    function State(): Session
      reads this
    {
      Session(accounts, currentPin)
    }

    ghost predicate Valid()
      reads this
    {
      ValidSession(State())
    }

    /** The script's start: the three accounts and no login. */
    constructor ()
      ensures accounts == InitialAccounts && currentPin == None
      ensures Valid()
    {
      accounts := InitialAccounts;
      currentPin := None;
    }

    /** `authenticate` with the PINs the user would type as a parameter: it
        reads at most three of them and logs in with the first that is an
        account's PIN; after three unknown PINs it fails and the login is
        left as it was. `tries` is the number of PINs read. */
    method Authenticate(attempts: seq<string>) returns (ok: bool, tries: nat)
      requires Valid()
      requires |attempts| == MaxAttempts
      modifies this
      ensures Valid() && accounts == old(accounts)
      ensures 1 <= tries <= MaxAttempts
      ensures ok <==> exists i :: 0 <= i < MaxAttempts && attempts[i] in accounts
      ensures forall j :: 0 <= j < tries - 1 ==> attempts[j] !in accounts
      ensures ok ==> attempts[tries - 1] in accounts && currentPin == Some(attempts[tries - 1])
      ensures !ok ==> tries == MaxAttempts && currentPin == old(currentPin)
    {
      for i := 0 to MaxAttempts
        invariant forall j :: 0 <= j < i ==> attempts[j] !in accounts
        invariant currentPin == old(currentPin) && accounts == old(accounts)
      {
        var pin := attempts[i];
        if pin in accounts {
          currentPin := Some(pin);
          return true, i + 1;
        }
      }
      return false, MaxAttempts;
    }

    method CheckBalance() returns (balance: Option<int>)
      requires Valid()
      ensures balance == Balance(State())
    {
      match currentPin
      case None =>
        balance := None;
      case Some(pin) =>
        balance := Some(accounts[pin]);
    }

    method DepositMoney(amount: int) returns (outcome: DepositOutcome)
      requires Valid()
      modifies this
      ensures (outcome, State()) == Deposit(old(State()), amount)
      ensures Valid()
    {
      match currentPin
      case None =>
        outcome := DepositNotLoggedIn;
      case Some(pin) =>
        if amount > 0 {
          accounts := accounts[pin := accounts[pin] + amount];
          outcome := Deposited;
        } else {
          outcome := NonPositiveDeposit;
        }
    }

    method WithdrawMoney(amount: int) returns (outcome: WithdrawOutcome)
      requires Valid()
      modifies this
      ensures (outcome, State()) == Withdraw(old(State()), amount)
      ensures Valid()
    {
      match currentPin
      case None =>
        outcome := WithdrawNotLoggedIn;
      case Some(pin) =>
        var currentBalance := accounts[pin];
        if amount <= 0 {
          outcome := NonPositiveWithdrawal;
        } else if amount > currentBalance {
          outcome := InsufficientFunds;
        } else {
          accounts := accounts[pin := currentBalance - amount];
          outcome := Withdrawn;
        }
    }
  }

  /** A failed login leaves every operation inert; a login with the second
      PIN lets money move on that account only. */
  method LoginScenario()
  {
    var atm := new AutomatedTellerMachine();
    var ok, tries := atm.Authenticate(["0000", "1111", "2222"]);
    assert !("0000" in atm.accounts || "1111" in atm.accounts || "2222" in atm.accounts);
    assert !ok && tries == 3 && atm.currentPin == None;
    var refused := atm.WithdrawMoney(100);
    assert refused == WithdrawNotLoggedIn;

    var attempts := ["0000", "4321", "1234"];
    ok, tries := atm.Authenticate(attempts);
    assert attempts[0] !in atm.accounts && attempts[1] in atm.accounts;
    assert ok && tries == 2 && atm.currentPin == Some("4321");
    var tooMuch := atm.WithdrawMoney(50001);
    assert tooMuch == InsufficientFunds;
    var taken := atm.WithdrawMoney(20000);
    assert taken == Withdrawn && atm.accounts["4321"] == 30000 && atm.accounts["1234"] == 150050;
  }
}
