/** The secondary index from keys, addresses and accounts to the accounts whose authorities
    mention them. */
module MemberIndex {

  type Key = nat
  type AccountId = nat

  /** An address is a hash of a key, or was given as such in the genesis block. */
  datatype Address = OfKey(key: Key) | Genesis(hash: nat)

  datatype Authority = Authority(accounts: set<AccountId>, keys: set<Key>, addresses: set<Address>)

  datatype Account = Account(owner: Authority, active: Authority, memoKey: Key)

  function AccountMembers(a: Account): set<AccountId> {
    a.owner.accounts + a.active.accounts
  }

  function KeyMembers(a: Account): set<Key> {
    a.owner.keys + a.active.keys + {a.memoKey}
  }

  function AddressMembers(a: Account): set<Address> {
    a.owner.addresses + a.active.addresses + {OfKey(a.memoKey)}
  }

  type Memberships<!K> = map<K, set<AccountId>>

  function Lookup<K>(m: Memberships<K>, k: K): set<AccountId> {
    if k in m then m[k] else {}
  }

  /** The index lists an account under `k` exactly if `k` is one of its members. */
  ghost predicate Agrees<K(!new)>(m: Memberships<K>, members: map<AccountId, set<K>>) {
    forall k, id :: id in Lookup(m, k) <==> id in members && k in members[id]
  }

  ghost predicate Added<K(!new)>(m: Memberships<K>, keys: set<K>, id: AccountId, r: Memberships<K>) {
    forall k :: Lookup(r, k) == Lookup(m, k) + if k in keys then {id} else {}
  }

  ghost predicate Erased<K(!new)>(m: Memberships<K>, keys: set<K>, id: AccountId, r: Memberships<K>) {
    forall k :: Lookup(r, k) == Lookup(m, k) - if k in keys then {id} else {}
  }

  /** List an account under every key of a set, one at a time. */
  method AddTo<K(==, !new)>(m: Memberships<K>, keys: set<K>, id: AccountId) returns (r: Memberships<K>)
    ensures Added(m, keys, id, r)
  {
    r := m;
    var rest := keys;
    while rest != {}
      invariant rest <= keys
      invariant Added(m, keys - rest, id, r)
      decreases rest
    {
      var k :| k in rest;
      r := r[k := Lookup(r, k) + {id}];
      rest := rest - {k};
    }
  }

  method EraseFrom<K(==, !new)>(m: Memberships<K>, keys: set<K>, id: AccountId) returns (r: Memberships<K>)
    ensures Erased(m, keys, id, r)
  {
    r := m;
    var rest := keys;
    while rest != {}
      invariant rest <= keys
      invariant Erased(m, keys - rest, id, r)
      decreases rest
    {
      var k :| k in rest;
      r := r[k := Lookup(r, k) - {id}];
      rest := rest - {k};
    }
  }

  lemma InsertAgrees<K(!new)>(m: Memberships<K>, members: map<AccountId, set<K>>, id: AccountId, keys: set<K>,
                              r: Memberships<K>)
    requires Agrees(m, members) && id !in members && Added(m, keys, id, r)
    ensures Agrees(r, members[id := keys])
  {
    hide Lookup;
  }

  lemma RemoveAgrees<K(!new)>(m: Memberships<K>, members: map<AccountId, set<K>>, id: AccountId, r: Memberships<K>)
    requires Agrees(m, members) && id in members && Erased(m, members[id], id, r)
    ensures Agrees(r, members - {id})
  {
    hide Lookup;
  }

  /** Erasing what is no longer mentioned and adding what is new turns the index of the
      account before into that of the account after. */
  lemma ModifyAgrees<K(!new)>(m: Memberships<K>, members: map<AccountId, set<K>>, id: AccountId, after: set<K>,
                              erased: Memberships<K>, r: Memberships<K>)
    requires Agrees(m, members) && id in members
    requires Erased(m, members[id] - after, id, erased) && Added(erased, after - members[id], id, r)
    ensures Agrees(r, members[id := after])
  {
    hide Lookup;
  }

  /** The members determine the index: two maps that agree with them answer alike, however
      they came about. */
  lemma AgreementIsUnique<K(!new)>(m: Memberships<K>, r: Memberships<K>, members: map<AccountId, set<K>>, k: K)
    requires Agrees(m, members) && Agrees(r, members)
    ensures Lookup(m, k) == Lookup(r, k)
  {
    hide Lookup;
    assert forall id :: id in Lookup(m, k) <==> id in members && k in members[id];
    assert forall id :: id in Lookup(r, k) <==> id in members && k in members[id];
  }

  function AccountTable(accounts: map<AccountId, Account>): map<AccountId, set<AccountId>> {
    map id | id in accounts :: AccountMembers(accounts[id])
  }

  function KeyTable(accounts: map<AccountId, Account>): map<AccountId, set<Key>> {
    map id | id in accounts :: KeyMembers(accounts[id])
  }

  function AddressTable(accounts: map<AccountId, Account>): map<AccountId, set<Address>> {
    map id | id in accounts :: AddressMembers(accounts[id])
  }

  datatype Operation =
    | Insert(id: AccountId, account: Account)
    | Remove(id: AccountId)
    | Modify(id: AccountId, account: Account)

  /** The accounts after an operation; one that cannot happen changes nothing. */
  function Applied(accounts: map<AccountId, Account>, op: Operation): map<AccountId, Account> {
    match op
    case Insert(id, a) => if id in accounts then accounts else accounts[id := a]
    case Remove(id) => accounts - {id}
    case Modify(id, a) => if id in accounts then accounts[id := a] else accounts
  }

  function AppliedAll(accounts: map<AccountId, Account>, ops: seq<Operation>): map<AccountId, Account>
    decreases |ops|
  {
    if ops == [] then accounts else AppliedAll(Applied(accounts, ops[0]), ops[1..])
  }

  /** Which accounts an index that agrees with the accounts lists: those whose owner or active
      authority mentions the account, the key or the address; and for keys and addresses also
      those with that memo key. */
  lemma LookupFinds(accounts: map<AccountId, Account>, byAccount: Memberships<AccountId>, byKey: Memberships<Key>,
                    byAddress: Memberships<Address>, id: AccountId, account: AccountId, key: Key, address: Address)
    requires Agrees(byAccount, AccountTable(accounts)) && Agrees(byKey, KeyTable(accounts))
    requires Agrees(byAddress, AddressTable(accounts))
    ensures id in Lookup(byAccount, account) <==>
            id in accounts && (account in accounts[id].owner.accounts || account in accounts[id].active.accounts)
    ensures id in Lookup(byKey, key) <==>
            && id in accounts
            && (key in accounts[id].owner.keys || key in accounts[id].active.keys || key == accounts[id].memoKey)
    ensures id in Lookup(byAddress, address) <==>
            && id in accounts
            && (|| address in accounts[id].owner.addresses || address in accounts[id].active.addresses
                || address == OfKey(accounts[id].memoKey))
  {
    Listed(byAccount, AccountTable(accounts), account, id);
    Listed(byKey, KeyTable(accounts), key, id);
    Listed(byAddress, AddressTable(accounts), address, id);
  }

  lemma Listed<K(!new)>(m: Memberships<K>, members: map<AccountId, set<K>>, k: K, id: AccountId)
    requires Agrees(m, members)
    ensures id in Lookup(m, k) <==> id in members && k in members[id]
  {
    hide Lookup;
  }

  /** The accounts after an operation. */
  lemma AppliedIs(accounts: map<AccountId, Account>, op: Operation, id: AccountId)
    ensures var after := Applied(accounts, op);
            && (id in after <==> (id in accounts && op != Remove(id)) || (op.Insert? && op.id == id))
            && (id in after ==>
                  after[id] == if op.id == id && (op.Modify? || (op.Insert? && id !in accounts)) then op.account
                               else accounts[id])
  {
  }

  class AccountMemberIndex {
    var byAccount: Memberships<AccountId>
    var byKey: Memberships<Key>
    var byAddress: Memberships<Address>
    var beforeAccounts: set<AccountId>
    var beforeKeys: set<Key>
    var beforeAddresses: set<Address>

    constructor ()
      ensures Indexes(map[])
    {
      byAccount, byKey, byAddress := map[], map[], map[];
      beforeAccounts, beforeKeys, beforeAddresses := {}, {}, {};
    }

    /** The three maps agree with the accounts. */
    ghost predicate Indexes(accounts: map<AccountId, Account>)
      reads this
    {
      && Agrees(byAccount, AccountTable(accounts))
      && Agrees(byKey, KeyTable(accounts))
      && Agrees(byAddress, AddressTable(accounts))
    }

    method ObjectInserted(id: AccountId, a: Account, ghost accounts: map<AccountId, Account>)
      requires Indexes(accounts) && id !in accounts
      modifies this
      ensures Indexes(accounts[id := a])
    {
      hide Agrees, Added;
      var m := AddTo(byAccount, AccountMembers(a), id);
      var k := AddTo(byKey, KeyMembers(a), id);
      var d := AddTo(byAddress, AddressMembers(a), id);
      InsertAgrees(byAccount, AccountTable(accounts), id, AccountMembers(a), m);
      InsertAgrees(byKey, KeyTable(accounts), id, KeyMembers(a), k);
      InsertAgrees(byAddress, AddressTable(accounts), id, AddressMembers(a), d);
      TablesUpdate(accounts, id, a);
      byAccount, byKey, byAddress := m, k, d;
    }

    method ObjectRemoved(id: AccountId, a: Account, ghost accounts: map<AccountId, Account>)
      requires Indexes(accounts) && id in accounts && accounts[id] == a
      modifies this
      ensures Indexes(accounts - {id})
    {
      hide Agrees, Erased;
      var k := EraseFrom(byKey, KeyMembers(a), id);
      var d := EraseFrom(byAddress, AddressMembers(a), id);
      var m := EraseFrom(byAccount, AccountMembers(a), id);
      RemoveAgrees(byAccount, AccountTable(accounts), id, m);
      RemoveAgrees(byKey, KeyTable(accounts), id, k);
      RemoveAgrees(byAddress, AddressTable(accounts), id, d);
      TablesRemove(accounts, id);
      byAccount, byKey, byAddress := m, k, d;
    }

    /** Remember what the account mentions before it changes. */
    method AboutToModify(before: Account)
      modifies `beforeAccounts, `beforeKeys, `beforeAddresses
      ensures beforeAccounts == AccountMembers(before)
      ensures beforeKeys == KeyMembers(before)
      ensures beforeAddresses == AddressMembers(before)
    {
      beforeKeys := KeyMembers(before);
      beforeAddresses := AddressMembers(before);
      beforeAccounts := AccountMembers(before);
    }

    /** Bring the maps up to date with what the account mentions now. */
    method ObjectModified(id: AccountId, after: Account, ghost accounts: map<AccountId, Account>)
      requires Indexes(accounts) && id in accounts
      requires beforeAccounts == AccountMembers(accounts[id])
      requires beforeKeys == KeyMembers(accounts[id])
      requires beforeAddresses == AddressMembers(accounts[id])
      modifies `byAccount, `byKey, `byAddress
      ensures Indexes(accounts[id := after])
    {
      hide Agrees, Added, Erased;
      var m := EraseFrom(byAccount, beforeAccounts - AccountMembers(after), id);
      var m2 := AddTo(m, AccountMembers(after) - beforeAccounts, id);
      var k := EraseFrom(byKey, beforeKeys - KeyMembers(after), id);
      var k2 := AddTo(k, KeyMembers(after) - beforeKeys, id);
      var d := EraseFrom(byAddress, beforeAddresses - AddressMembers(after), id);
      var d2 := AddTo(d, AddressMembers(after) - beforeAddresses, id);
      ModifyAgrees(byAccount, AccountTable(accounts), id, AccountMembers(after), m, m2);
      ModifyAgrees(byKey, KeyTable(accounts), id, KeyMembers(after), k, k2);
      ModifyAgrees(byAddress, AddressTable(accounts), id, AddressMembers(after), d, d2);
      TablesUpdate(accounts, id, after);
      byAccount, byKey, byAddress := m2, k2, d2;
    }

    /** Over every run of insertions, removals and modifications the maps agree with the
        accounts that result. */
    method Follow(accounts: map<AccountId, Account>, ops: seq<Operation>) returns (result: map<AccountId, Account>)
      requires Indexes(accounts)
      modifies this
      ensures result == AppliedAll(accounts, ops) && Indexes(result)
    {
      result := accounts;
      var i := 0;
      assert ops[0..] == ops;
      while i < |ops|
        invariant 0 <= i <= |ops| && Indexes(result)
        invariant AppliedAll(accounts, ops) == AppliedAll(result, ops[i..])
      {
        hide Agrees;
        var next := Applied(result, ops[i]);
        assert ops[i..][1..] == ops[i + 1..];
        match ops[i] {
          case Insert(id, a) =>
            if id !in result {
              ObjectInserted(id, a, result);
            }
          case Remove(id) =>
            if id in result {
              ObjectRemoved(id, result[id], result);
            } else {
              assert result - {id} == result;
            }
          case Modify(id, a) =>
            if id in result {
              AboutToModify(result[id]);
              ObjectModified(id, a, result);
            }
        }
        result := next;
        i := i + 1;
      }
    }
  }

  lemma TablesUpdate(accounts: map<AccountId, Account>, id: AccountId, a: Account)
    ensures AccountTable(accounts[id := a]) == AccountTable(accounts)[id := AccountMembers(a)]
    ensures KeyTable(accounts[id := a]) == KeyTable(accounts)[id := KeyMembers(a)]
    ensures AddressTable(accounts[id := a]) == AddressTable(accounts)[id := AddressMembers(a)]
  {
  }

  lemma TablesRemove(accounts: map<AccountId, Account>, id: AccountId)
    ensures AccountTable(accounts - {id}) == AccountTable(accounts) - {id}
    ensures KeyTable(accounts - {id}) == KeyTable(accounts) - {id}
    ensures AddressTable(accounts - {id}) == AddressTable(accounts) - {id}
  {
  }
}
