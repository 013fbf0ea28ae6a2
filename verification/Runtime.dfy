// Accounts as the runtime keeps them, what it lets an untrusted call do to them, and how tokens move.
module Runtime {
  import opened Outcomes
  import opened Positions

  type Key = nat

  const SYSTEM_PROGRAM: Key := 0
  const ACCRUE_PROGRAM: Key := 1
  const TOKEN_PROGRAM: Key := 2
  const TOKEN_2022_PROGRAM: Key := 3
  const LEND_PROGRAM: Key := 4
  const FARMS_PROGRAM: Key := 5
  const SWAP_PROGRAM: Key := 6

  datatype Data =
    | Empty
    | Tokens(mint: Key, holder: Key, amount: u64, delegate: Option<Key>, closer: Option<Key>)
    | Loan(obligation: Obligation)
    | Record(position: Position)
    | Other(bytes: nat)

  /** What the lending market keeps for a position; the two values are as of its last refresh. */
  datatype Obligation = Obligation(
    debtScaled: u128, collateral: u64, depositedValueScaled: u128, adjustedDebtValueScaled: u128, updatedAt: u64)

  datatype Account = Account(program: Key, lamports: nat, data: Data)

  type Accounts = map<Key, Account>

  /** An address nobody has used reads as an empty account of the system program. */
  function At(accounts: Accounts, key: Key): Account {
    if key in accounts then accounts[key] else Account(SYSTEM_PROGRAM, 0, Empty)
  }

  predicate IsTokenProgram(program: Key) {
    program == TOKEN_PROGRAM || program == TOKEN_2022_PROGRAM
  }

  predicate IsTokenAccount(account: Account) {
    IsTokenProgram(account.program) && account.data.Tokens?
  }

  function Amount(accounts: Accounts, key: Key): nat {
    if IsTokenAccount(At(accounts, key)) then At(accounts, key).data.amount else 0
  }

  // ----- token transfers

  function WithAmount(account: Account, amount: u64): Account
    requires IsTokenAccount(account)
  {
    account.(data := account.data.(amount := amount))
  }

  /** A checked transfer signed by `authority`. */
  function Transfer(accounts: Accounts, from: Key, to: Key, authority: Key, amount: u64): Checked<Accounts> {
    var source, target := At(accounts, from), At(accounts, to);
    if from == to || !IsTokenAccount(source) || !IsTokenAccount(target) then Err(TransferRefused)
    else if source.data.mint != target.data.mint || source.data.holder != authority then Err(TransferRefused)
    else if source.data.amount < amount || target.data.amount + amount >= TWO_TO_THE_64 then Err(TransferRefused)
    else
      Ok(accounts[from := WithAmount(source, source.data.amount - amount)][to := WithAmount(target,
          target.data.amount + amount)])
  }

  /** Only the holder's signature moves tokens, from one account of a mint to another, and no more than there are. */
  lemma ATransferMovesExactly(accounts: Accounts, from: Key, to: Key, authority: Key, amount: u64)
    ensures var source, target := At(accounts, from), At(accounts, to);
      Transfer(accounts, from, to, authority, amount).Ok? <==>
      && from != to && IsTokenAccount(source) && IsTokenAccount(target)
      && source.data.mint == target.data.mint && source.data.holder == authority
      && amount <= Amount(accounts, from) && Amount(accounts, to) + amount < TWO_TO_THE_64
    ensures var moved := Transfer(accounts, from, to, authority, amount);
      moved.Ok? ==>
      && Amount(moved.value, from) == Amount(accounts, from) - amount
      && Amount(moved.value, to) == Amount(accounts, to) + amount
      && (forall key :: key !in {from, to} ==> At(moved.value, key) == At(accounts, key))
      && At(moved.value, from) == WithAmount(At(accounts, from), Amount(accounts, from) - amount)
      && At(moved.value, to) == WithAmount(At(accounts, to), Amount(accounts, to) + amount)
  {
  }

  // ----- the supply of a mint

  function Held(account: Account, mint: Key): nat {
    if IsTokenAccount(account) && account.data.mint == mint then account.data.amount else 0
  }

  ghost function SumHeld(accounts: Accounts, keys: set<Key>, mint: Key): nat {
    if keys == {} then 0
    else
      var key :| key in keys;
      Held(At(accounts, key), mint) + SumHeld(accounts, keys - {key}, mint)
  }

  /** Every unit of a mint in every token account. */
  ghost function SupplyHeld(accounts: Accounts, mint: Key): nat {
    SumHeld(accounts, accounts.Keys, mint)
  }

  lemma {:induction false} SumWithout(accounts: Accounts, keys: set<Key>, key: Key, mint: Key)
    requires key in keys
    ensures SumHeld(accounts, keys, mint) == Held(At(accounts, key), mint) + SumHeld(accounts, keys - {key}, mint)
  {
    var first :| first in keys && SumHeld(accounts, keys, mint)
        == Held(At(accounts, first), mint) + SumHeld(accounts, keys - {first}, mint);
    if first != key {
      SumWithout(accounts, keys - {first}, key, mint);
      SumWithout(accounts, keys - {key}, first, mint);
      assert keys - {first} - {key} == keys - {key} - {first};
    }
  }

  lemma {:induction false} SumAgrees(left: Accounts, right: Accounts, keys: set<Key>, mint: Key)
    requires forall key :: key in keys ==> Held(At(left, key), mint) == Held(At(right, key), mint)
    ensures SumHeld(left, keys, mint) == SumHeld(right, keys, mint)
  {
    if keys != {} {
      var key :| key in keys;
      SumWithout(left, keys, key, mint);
      SumWithout(right, keys, key, mint);
      SumAgrees(left, right, keys - {key}, mint);
    }
  }

  /** Writing one account changes the supply by what that account gains. */
  lemma SupplyAfterAWrite(accounts: Accounts, key: Key, account: Account, mint: Key)
    ensures SupplyHeld(accounts[key := account], mint) + Held(At(accounts, key), mint)
        == SupplyHeld(accounts, mint) + Held(account, mint)
  {
    var written := accounts[key := account];
    SumWithout(written, written.Keys, key, mint);
    SumAgrees(accounts, written, written.Keys - {key}, mint);
    if key in accounts {
      SumWithout(accounts, accounts.Keys, key, mint);
      assert written.Keys == accounts.Keys;
    } else {
      assert written.Keys - {key} == accounts.Keys;
    }
  }

  ghost predicate Conserves(before: Accounts, after: Accounts) {
    forall mint :: SupplyHeld(before, mint) == SupplyHeld(after, mint)
  }

  lemma ConservesInTurn(before: Accounts, between: Accounts, after: Accounts)
    requires Conserves(before, between) && Conserves(between, after)
    ensures Conserves(before, after)
  {
    forall mint ensures SupplyHeld(before, mint) == SupplyHeld(after, mint) {
      assert SupplyHeld(before, mint) == SupplyHeld(between, mint);
    }
  }

  /** A transfer neither mints nor burns. */
  lemma TransferConserves(accounts: Accounts, from: Key, to: Key, authority: Key, amount: u64)
    requires Transfer(accounts, from, to, authority, amount).Ok?
    ensures Conserves(accounts, Transfer(accounts, from, to, authority, amount).value)
  {
    var source, target := At(accounts, from), At(accounts, to);
    var debited := accounts[from := WithAmount(source, source.data.amount - amount)];
    forall mint ensures SupplyHeld(accounts, mint)
        == SupplyHeld(Transfer(accounts, from, to, authority, amount).value, mint) {
      SupplyAfterAWrite(accounts, from, WithAmount(source, source.data.amount - amount), mint);
      SupplyAfterAWrite(debited, to, WithAmount(target, target.data.amount + amount), mint);
    }
  }

  /** Writing an account that holds no tokens, before or after, does neither. */
  lemma OtherWritesConserve(accounts: Accounts, key: Key, account: Account)
    requires !IsTokenAccount(At(accounts, key)) && !IsTokenAccount(account)
    ensures Conserves(accounts, accounts[key := account])
  {
    forall mint ensures SupplyHeld(accounts, mint) == SupplyHeld(accounts[key := account], mint) {
      SupplyAfterAWrite(accounts, key, account, mint);
    }
  }

  // ----- the call into the router

  /** One account of the route, as the transaction passes it. */
  datatype Passed = Passed(key: Key, writable: bool)

  /**
   * The call the program makes into the router: the route, the position that signs through the program's seeds,
   * and the addresses the router and the programs it calls can sign for themselves.
   */
  datatype Call = Call(route: seq<Passed>, position: Key, ownAuthorities: set<Key>)

  predicate IsPassed(call: Call, key: Key) {
    exists i :: 0 <= i < |call.route| && call.route[i].key == key
  }

  predicate IsPassedWritable(call: Call, key: Key) {
    exists i :: 0 <= i < |call.route| && call.route[i].key == key && call.route[i].writable
  }

  /** A program runs during the call only when its own account was passed, or it is the router. */
  predicate Runs(call: Call, program: Key) {
    program == SWAP_PROGRAM || IsPassed(call, program)
  }

  predicate Signs(call: Call, key: Key) {
    key in call.ownAuthorities || (key == call.position && IsPassed(call, key))
  }

  /** Some authority over the token account signs during the call. */
  predicate InReach(call: Call, tokens: Data)
    requires tokens.Tokens?
  {
    || Signs(call, tokens.holder)
    || (tokens.delegate.Some? && Signs(call, tokens.delegate.value))
    || (tokens.closer.Some? && Signs(call, tokens.closer.value))
  }

  /**
   * What may become of one account. Only an account passed as writable changes; an account whose program does
   * not run keeps its data and can only be paid; a token account no signer has authority over can only be paid;
   * and an address never holds tokens of another mint. Everything else is up to the router.
   */
  predicate MayBecome(call: Call, key: Key, was: Account, is_: Account) {
    || is_ == was
    || (&& IsPassedWritable(call, key)
        && (!Runs(call, was.program) ==>
              is_.program == was.program && is_.data == was.data && is_.lamports >= was.lamports)
        && (IsTokenAccount(was) && is_.data.Tokens? ==> is_.data.mint == was.data.mint)
        && (IsTokenAccount(was) && !InReach(call, was.data) ==>
              && is_.program == was.program && is_.lamports >= was.lamports && is_.data.Tokens?
              && is_.data == was.data.(amount := is_.data.amount) && is_.data.amount >= was.data.amount))
  }

  predicate RuntimeAllows(call: Call, before: Accounts, after: Accounts) {
    forall key | key in before.Keys + after.Keys :: MayBecome(call, key, At(before, key), At(after, key))
  }

  /** Passed is on the route, as writable or not. */
  lemma PassedIsOnTheRoute(call: Call, key: Key)
    ensures IsPassedWritable(call, key) <==> Passed(key, true) in call.route
    ensures IsPassed(call, key) <==> Passed(key, true) in call.route || Passed(key, false) in call.route
  {
    forall i | 0 <= i < |call.route| && call.route[i].key == key
      ensures call.route[i] == Passed(key, true) || call.route[i] == Passed(key, false)
    {
    }
  }

  /** Nobody else signs: only the router's own addresses do, and the position once it is passed. */
  lemma NobodyElseSigns(call: Call, key: Key)
    ensures Signs(call, key) <==>
      key in call.ownAuthorities
      || (key == call.position && (Passed(key, true) in call.route || Passed(key, false) in call.route))
  {
    PassedIsOnTheRoute(call, key);
  }

  predicate KeepsItsMint(was: Account, is_: Account)
    requires was.data.Tokens?
  {
    is_.data.Tokens? ==> is_.data.mint == was.data.mint
  }

  predicate IsPaid(was: Account, is_: Account)
    requires was.data.Tokens?
  {
    && is_.data.Tokens? && is_ == was.(lamports := is_.lamports, data := was.data.(amount := is_.data.amount))
    && is_.lamports >= was.lamports && is_.data.amount >= was.data.amount
  }

  /**
   * The rules leave everything else open. A writable account of a running program becomes anything, a token account
   * of a signer anything of its mint; and anyone may be paid lamports, or tokens while a token program runs.
   */
  lemma TheRestIsOpen(call: Call, key: Key, was: Account, is_: Account)
    requires Passed(key, true) in call.route
    requires
      || (is_ == was.(lamports := is_.lamports) && is_.lamports >= was.lamports)
      || (Runs(call, was.program) && !IsTokenAccount(was))
      || (Runs(call, was.program) && IsTokenAccount(was) && InReach(call, was.data) && KeepsItsMint(was, is_))
      || (Runs(call, was.program) && IsTokenAccount(was) && IsPaid(was, is_))
    ensures MayBecome(call, key, was, is_)
  {
    PassedIsOnTheRoute(call, key);
  }
}
