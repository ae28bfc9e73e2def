/** Who belongs to a pool: the list of users and devices in memory, and its record in the database. */
module Membership {
  import opened Ids

  /** A user and its devices as they are saved. */
  datatype UserRecord = UserRecord(userID: Id, devices: seq<Id>)

  type Record = seq<UserRecord>

  // ---- Membership on values ----

  ghost predicate Unique(s: Record) {
    forall i, j | 0 <= i < j < |s| :: s[i].userID != s[j].userID
  }

  /** What a record says, whatever the order of users and devices. */
  ghost function Facts(s: Record): set<(Id, multiset<Id>)> {
    set r | r in s :: (r.userID, multiset(r.devices))
  }

  /** The record of a pool, where no record stands for no users, says what s says. */
  ghost predicate Matches(s: Record, stored: map<Id, Record>, poolID: Id) {
    && Unique(s)
    && if s == [] then poolID !in stored
       else poolID in stored && Unique(stored[poolID]) && Facts(stored[poolID]) == Facts(s)
  }

  function Store(stored: map<Id, Record>, poolID: Id, s: Record): map<Id, Record> {
    if s == [] then stored - {poolID} else stored[poolID := s]
  }

  function FindUser(s: Record, userID: Id): (i: nat)
    ensures i <= |s| && (i < |s| ==> s[i].userID == userID)
    ensures forall k | 0 <= k < i :: s[k].userID != userID
  {
    if s == [] || s[0].userID == userID then 0 else 1 + FindUser(s[1..], userID)
  }

  function FindDevice(s: seq<Id>, deviceID: Id): (i: nat)
    ensures i <= |s| && (i < |s| ==> s[i] == deviceID)
    ensures forall k | 0 <= k < i :: s[k] != deviceID
  {
    if s == [] || s[0] == deviceID then 0 else 1 + FindDevice(s[1..], deviceID)
  }

  /** Element i is overwritten by the last one, which is cut off. */
  function SwapRemove<T>(s: seq<T>, i: nat): (r: seq<T>)
    requires i < |s|
    ensures |r| == |s| - 1
  {
    s[i := s[|s|-1]][..|s|-1]
  }

  /** The list after an operation whose write, if there was one, succeeded or not. */
  function UserAdded(s: Record, user: UserRecord, ok: bool): Record {
    if FindUser(s, user.userID) < |s| || !ok then s else s + [user]
  }

  function UserRemoved(s: Record, userID: Id, ok: bool): Record {
    var i := FindUser(s, userID);
    if i == |s| then s else SwapRemove(s, i) + if ok then [] else [s[i]]
  }

  function DeviceAdded(s: Record, userID: Id, deviceID: Id, ok: bool): Record {
    var i := FindUser(s, userID);
    if i == |s| || deviceID in s[i].devices || !ok then s
    else s[i := UserRecord(userID, s[i].devices + [deviceID])]
  }

  predicate IsOnlyDevice(s: Record, userID: Id, deviceID: Id) {
    var i := FindUser(s, userID);
    i < |s| && s[i].devices == [deviceID]
  }

  predicate HasDevice(s: Record, userID: Id, deviceID: Id) {
    var i := FindUser(s, userID);
    i < |s| && deviceID in s[i].devices
  }

  function DeviceRemoved(s: Record, userID: Id, deviceID: Id, ok: bool): Record {
    if !HasDevice(s, userID, deviceID) then s
    else
      var i := FindUser(s, userID);
      if IsOnlyDevice(s, userID, deviceID) then SwapRemove(s, i)
      else
        var rest := SwapRemove(s[i].devices, FindDevice(s[i].devices, deviceID));
        s[i := UserRecord(userID, rest + if ok then [] else [deviceID])]
  }

  lemma SwapRemoveElements<T>(s: seq<T>, i: nat)
    requires i < |s|
    ensures multiset(SwapRemove(s, i)) == multiset(s) - multiset{s[i]}
  {
    var last := |s| - 1;
    assert s == s[..last] + [s[last]];
    if i < last {
      assert s[i := s[last]][..last] == s[..last][i := s[last]];
    }
  }

  // ---- What the operations mean ----

  predicate Has(s: Record, userID: Id) {
    FindUser(s, userID) < |s|
  }

  /** The devices of a user. */
  function Held(s: Record, userID: Id): multiset<Id> {
    var i := FindUser(s, userID);
    if i < |s| then multiset(s[i].devices) else multiset{}
  }

  lemma FoundAt(s: Record, i: nat)
    requires Unique(s) && i < |s|
    ensures FindUser(s, s[i].userID) == i
  {
  }

  lemma UniqueAfterSwap(s: Record, i: nat)
    requires Unique(s) && i < |s|
    ensures Unique(SwapRemove(s, i)) && Unique(SwapRemove(s, i) + [s[i]])
    ensures forall r :: r in SwapRemove(s, i) <==> r in s && r != s[i]
    ensures forall r :: r in SwapRemove(s, i) + [s[i]] <==> r in s
  {
    var last, t := |s| - 1, SwapRemove(s, i);
    assert forall k | 0 <= k < last :: t[k] == if k == i then s[last] else s[k];
    forall r | r in s && r != s[i]
      ensures r in t
    {
      var k :| 0 <= k < |s| && s[k] == r;
      assert t[if k == last then i else k] == r;
    }
  }

  /** Adding a user that is not there adds exactly this user. */
  lemma UserIsAdded(s: Record, user: UserRecord, v: Id)
    requires Unique(s) && !Has(s, user.userID)
    ensures Unique(UserAdded(s, user, true))
    ensures Has(UserAdded(s, user, true), v) <==> Has(s, v) || v == user.userID
    ensures Held(UserAdded(s, user, true), v) == if v == user.userID then multiset(user.devices) else Held(s, v)
  {
    var t := s + [user];
    if v == user.userID { FoundAt(t, |s|); }
    if Has(s, v) {
      assert t[FindUser(s, v)] == s[FindUser(s, v)];
      FoundAt(t, FindUser(s, v));
    }
  }

  /** Removing a user removes exactly this user. */
  lemma UserIsRemoved(s: Record, userID: Id, v: Id)
    requires Unique(s)
    ensures Unique(UserRemoved(s, userID, true))
    ensures Has(UserRemoved(s, userID, true), v) <==> Has(s, v) && v != userID
    ensures Held(UserRemoved(s, userID, true), v) == if v == userID then multiset{} else Held(s, v)
  {
    var t := UserRemoved(s, userID, true);
    if Has(s, userID) {
      UniqueAfterSwap(s, FindUser(s, userID));
      LookupAfterSwap(s, FindUser(s, userID), v);
      assert t == SwapRemove(s, FindUser(s, userID));
    }
  }

  lemma LookupAfterSwap(s: Record, i: nat, v: Id)
    requires Unique(s) && i < |s|
    ensures Has(SwapRemove(s, i), v) <==> Has(s, v) && v != s[i].userID
    ensures Held(SwapRemove(s, i), v) == if v == s[i].userID then multiset{} else Held(s, v)
  {
    UniqueAfterSwap(s, i);
    var t := SwapRemove(s, i);
    if Has(t, v) {
      assert t[FindUser(t, v)] in s && t[FindUser(t, v)] != s[i];
      var k :| 0 <= k < |s| && s[k] == t[FindUser(t, v)];
      FoundAt(s, k);
    }
    if Has(s, v) && v != s[i].userID {
      assert s[FindUser(s, v)] in t;
      var k :| 0 <= k < |t| && t[k] == s[FindUser(s, v)];
      FoundAt(t, k);
    }
  }

  lemma LookupAfterUpdate(s: Record, i: nat, devices: seq<Id>, v: Id)
    requires Unique(s) && i < |s|
    ensures var t := s[i := UserRecord(s[i].userID, devices)];
      && Unique(t) && FindUser(t, v) == FindUser(s, v)
      && (Has(t, v) <==> Has(s, v)) && Held(t, v) == if v == s[i].userID then multiset(devices) else Held(s, v)
  {
    var t := s[i := UserRecord(s[i].userID, devices)];
    FoundAt(s, i);
    if Has(s, v) { FoundAt(t, FindUser(s, v)); }
    if Has(t, v) { FoundAt(s, FindUser(t, v)); }
  }

  /** Adding a device gives it to this user, and changes nothing else. */
  lemma DeviceIsAdded(s: Record, userID: Id, deviceID: Id, v: Id)
    requires Unique(s) && Has(s, userID)
    ensures var t := DeviceAdded(s, userID, deviceID, true);
      && Unique(t) && (Has(t, v) <==> Has(s, v)) && HasDevice(t, userID, deviceID)
      && Held(t, v) == if v == userID && deviceID !in Held(s, v) then Held(s, v) + multiset{deviceID} else Held(s, v)
  {
    var i := FindUser(s, userID);
    LookupAfterUpdate(s, i, s[i].devices + [deviceID], v);
    LookupAfterUpdate(s, i, s[i].devices + [deviceID], userID);
  }

  /** Removing a device takes it from this user, who goes with the last one. */
  lemma DeviceIsRemoved(s: Record, userID: Id, deviceID: Id, v: Id)
    requires Unique(s) && HasDevice(s, userID, deviceID)
    ensures var t := DeviceRemoved(s, userID, deviceID, true);
      && Unique(t) && (Has(t, v) <==> Has(s, v) && !(v == userID && IsOnlyDevice(s, userID, deviceID)))
      && Held(t, v) == if v == userID then Held(s, v) - multiset{deviceID} else Held(s, v)
  {
    var i := FindUser(s, userID);
    if IsOnlyDevice(s, userID, deviceID) {
      UniqueAfterSwap(s, i);
      LookupAfterSwap(s, i, v);
    } else {
      var j := FindDevice(s[i].devices, deviceID);
      SwapRemoveElements(s[i].devices, j);
      LookupAfterUpdate(s, i, SwapRemove(s[i].devices, j), v);
      assert SwapRemove(s[i].devices, j) + [] == SwapRemove(s[i].devices, j);
    }
  }

  // ---- Memory and database keep agreeing ----

  lemma SameFacts(s: Record, t: Record)
    requires forall r :: r in s <==> r in t
    ensures Facts(s) == Facts(t)
  {
  }

  lemma SameFactsUpdated(s: Record, i: nat, r: UserRecord)
    requires i < |s| && r.userID == s[i].userID && multiset(r.devices) == multiset(s[i].devices)
    ensures Facts(s[i := r]) == Facts(s)
  {
    var t := s[i := r];
    forall x | x in s
      ensures (x.userID, multiset(x.devices)) in Facts(t)
    {
      var k :| 0 <= k < |s| && s[k] == x;
      assert t[k] in t;
    }
    forall x | x in t
      ensures (x.userID, multiset(x.devices)) in Facts(s)
    {
      var k :| 0 <= k < |t| && t[k] == x;
      assert s[k] in s;
    }
  }

  lemma UserAddedMatches(s: Record, stored: map<Id, Record>, poolID: Id, user: UserRecord, ok: bool)
    requires Matches(s, stored, poolID) && !Has(s, user.userID)
    ensures var t := UserAdded(s, user, ok); Matches(t, if ok then Store(stored, poolID, t) else stored, poolID)
  {
  }

  lemma UserRemovedMatches(s: Record, stored: map<Id, Record>, poolID: Id, userID: Id, ok: bool)
    requires Matches(s, stored, poolID) && Has(s, userID)
    ensures var t := UserRemoved(s, userID, ok); Matches(t, if ok then Store(stored, poolID, t) else stored, poolID)
  {
    var i := FindUser(s, userID);
    UniqueAfterSwap(s, i);
    if ok {
      assert UserRemoved(s, userID, true) == SwapRemove(s, i);
    } else {
      SameFacts(s, UserRemoved(s, userID, false));
    }
  }

  lemma DeviceAddedMatches(s: Record, stored: map<Id, Record>, poolID: Id, userID: Id, deviceID: Id, ok: bool)
    requires Matches(s, stored, poolID) && Has(s, userID) && !HasDevice(s, userID, deviceID)
    ensures var t := DeviceAdded(s, userID, deviceID, ok);
      Matches(t, if ok then Store(stored, poolID, t) else stored, poolID)
  {
  }

  /** Removing a device keeps memory and record in agreement exactly unless the write fails and the
      device is the user's only one: then the user is gone from memory but not from the record. */
  lemma DeviceRemovedMatches(s: Record, stored: map<Id, Record>, poolID: Id, userID: Id, deviceID: Id, ok: bool)
    requires Matches(s, stored, poolID) && HasDevice(s, userID, deviceID)
    ensures var t := DeviceRemoved(s, userID, deviceID, ok);
      Matches(t, if ok then Store(stored, poolID, t) else stored, poolID) <==> ok || !IsOnlyDevice(s, userID, deviceID)
  {
    var i := FindUser(s, userID);
    if ok {
      DeviceIsRemoved(s, userID, deviceID, userID);
    } else if IsOnlyDevice(s, userID, deviceID) {
      UniqueAfterSwap(s, i);
      LosesFact(s, i);
    } else {
      var j := FindDevice(s[i].devices, deviceID);
      var devices := SwapRemove(s[i].devices, j) + [deviceID];
      SwapRemoveElements(s[i].devices, j);
      assert multiset(devices) == multiset(s[i].devices);
      LookupAfterUpdate(s, i, devices, userID);
      SameFactsUpdated(s, i, UserRecord(userID, devices));
    }
  }

  lemma LosesFact(s: Record, i: nat)
    requires Unique(s) && i < |s|
    ensures Facts(SwapRemove(s, i)) != Facts(s)
  {
    UniqueAfterSwap(s, i);
    var f := (s[i].userID, multiset(s[i].devices));
    assert s[i] in s && f in Facts(s);
    forall r | r in SwapRemove(s, i)
      ensures r.userID != s[i].userID
    {
      var k :| 0 <= k < |s| && s[k] == r;
    }
    assert f !in Facts(SwapRemove(s, i));
  }

  /** The failing family is not empty: one user with one device, and a write that fails. */
  lemma LostUser()
    ensures var s, stored := [UserRecord(1, [7])], map[5 := [UserRecord(1, [7])]];
      && Matches(s, stored, 5) && DeviceRemoved(s, 1, 7, false) == [] && !Matches([], stored, 5)
  {
  }

  // ---- The pool store ----

  class UserInfo {
    const userID: Id
    var devices: seq<Id>

    constructor (userID: Id, devices: seq<Id>)
      ensures this.userID == userID && this.devices == devices
    {
      this.userID := userID;
      this.devices := devices;
    }
  }

  /** The pool database.  A put or a delete happens as a whole, or fails and changes nothing. */
  class Database {
    var stored: map<Id, Record>

    constructor ()
      ensures stored == map[]
    {
      stored := map[];
    }

    method Put(poolID: Id, s: Record) returns (ok: bool)
      modifies this
      ensures stored == if ok then old(stored)[poolID := s] else old(stored)
    {
      ok := *;
      if ok { stored := stored[poolID := s]; }
    }

    method Delete(poolID: Id) returns (ok: bool)
      modifies this
      ensures stored == if ok then old(stored) - {poolID} else old(stored)
    {
      ok := *;
      if ok { stored := stored - {poolID}; }
    }
  }

  function Infos(users: seq<UserInfo>): (s: Record)
    reads users
    ensures |s| == |users| && forall i | 0 <= i < |s| :: s[i] == UserRecord(users[i].userID, users[i].devices)
  {
    if users == [] then []
    else Infos(users[..|users|-1]) + [UserRecord(users[|users|-1].userID, users[|users|-1].devices)]
  }

  class StorePool {
    const poolID: Id
    const db: Database
    var users: seq<UserInfo>

    constructor (poolID: Id, db: Database, users: seq<UserInfo>)
      ensures this.poolID == poolID && this.db == db && this.users == users
    {
      this.poolID := poolID;
      this.db := db;
      this.users := users;
    }

    /** A new pool of one user, which is only handed out once it is in the database. */
    static method NewPool(poolID: Id, db: Database, owner: UserInfo) returns (pool: StorePool?)
      modifies db
      ensures pool == null ==> db.stored == old(db.stored)
      ensures pool != null ==> db.stored == Store(old(db.stored), poolID, [UserRecord(owner.userID, owner.devices)])
      ensures pool != null ==>
        fresh(pool) && pool.poolID == poolID && pool.users == [owner] && pool.db == db && pool.Agrees()
    {
      pool := new StorePool(poolID, db, [owner]);
      InfosAre(pool.users, [UserRecord(owner.userID, owner.devices)]);
      var ok := pool.Update();
      if !ok {
        pool := null;
      }
    }

    /** A pool with users of its own, made from its record. */
    static method GetStoredPool(poolID: Id, db: Database) returns (pool: StorePool?)
      ensures pool == null <==> poolID !in db.stored
      ensures pool != null ==> fresh(pool) && fresh(pool.users) && pool.poolID == poolID && pool.db == db
      ensures pool != null ==> Infos(pool.users) == db.stored[poolID]
    {
      if poolID !in db.stored {
        return null;
      }
      var s := db.stored[poolID];
      var users: seq<UserInfo> := [];
      for i := 0 to |s|
        invariant fresh(users) && |users| == i
        invariant forall k | 0 <= k < i :: users[k].userID == s[k].userID && users[k].devices == s[k].devices
      {
        var user := new UserInfo(s[i].userID, s[i].devices);
        users := users + [user];
      }
      InfosAre(users, s);
      pool := new StorePool(poolID, db, users);
    }

    function GetUsersCopy(): Record
      reads this, users
    {
      Infos(users)
    }

    /** User ids are unique, and the database says what memory says. */
    ghost predicate Agrees()
      reads this, users, db
    {
      Matches(Infos(users), db.stored, poolID)
    }

    method Update() returns (ok: bool)
      modifies db
      ensures db.stored == if ok then Store(old(db.stored), poolID, Infos(users)) else old(db.stored)
    {
      if |users| == 0 {
        ok := db.Delete(poolID);
      } else {
        var s := GetUsersCopy();
        ok := db.Put(poolID, s);
      }
    }

    /** The position of the user in the list, which is its length when there is no such user. */
    method LookUpUser(userID: Id) returns (i: nat)
      ensures i == FindUser(Infos(users), userID)
    {
      i := 0;
      while i < |users| && users[i].userID != userID
        invariant i <= |users| && forall k | 0 <= k < i :: users[k].userID != userID
      {
        i := i + 1;
      }
      FirstIsFound(Infos(users), userID, i);
    }

    method HasUser(userID: Id) returns (found: bool)
      ensures found == Has(Infos(users), userID)
    {
      var i := LookUpUser(userID);
      found := i < |users|;
    }

    method AddUser(userInfo: UserInfo) returns (ok: bool)
      modifies this`users, db
      ensures Infos(users) == UserAdded(old(Infos(users)), UserRecord(userInfo.userID, userInfo.devices), ok)
      ensures forall u | u in users :: u in old(users) || u == userInfo
      ensures old(Has(Infos(users), userInfo.userID)) ==> !ok
      ensures db.stored == if ok then Store(old(db.stored), poolID, Infos(users)) else old(db.stored)
      ensures old(Agrees()) ==> Agrees()
    {
      hide *;
      var i := LookUpUser(userInfo.userID);
      ghost var s, stored, info := Infos(users), db.stored, UserRecord(userInfo.userID, userInfo.devices);
      AddedOrNot(s, info, userInfo.userID);
      AgreementIs();
      if i < |users| {
        ok := false;
      } else {
        PushUser(userInfo);
        ok := Update();
        if !ok {
          PopUser(s);
        }
        AddedAgrees(s, stored, info, ok);
      }
    }

    method PushUser(user: UserInfo)
      modifies this`users
      ensures users == old(users) + [user]
      ensures Infos(users) == old(Infos(users)) + [UserRecord(user.userID, user.devices)]
    {
      users := users + [user];
      assert users[..|users|-1] == old(users);
    }

    method PopUser(ghost s: Record)
      requires |users| > 0 && Infos(users)[..|users|-1] == s
      modifies this`users
      ensures Infos(users) == s && users == old(users)[..|old(users)|-1]
    {
      users := users[..|users|-1];
    }

    lemma AgreementIs()
      ensures Agrees() == Matches(Infos(users), db.stored, poolID)
    {
    }

    /** User i is overwritten by the last one, which is cut off. */
    method CutUser(i: nat)
      requires i < |users|
      modifies this`users
      ensures users == SwapRemove(old(users), i) && Infos(users) == SwapRemove(old(Infos(users)), i)
      ensures old(Separate()) ==> old(users[i]) !in users
    {
      users := users[i := users[|users|-1]];
      users := users[..|users|-1];
      InfosAre(users, SwapRemove(old(Infos(users)), i));
    }

    /** The list keeps agreeing with the database after the write of an added user. */
    lemma AddedAgrees(s: Record, stored: map<Id, Record>, user: UserRecord, ok: bool)
      requires !Has(s, user.userID) && Infos(users) == UserAdded(s, user, ok)
      requires db.stored == if ok then Store(stored, poolID, Infos(users)) else stored
      ensures Matches(s, stored, poolID) ==> Agrees()
    {
    }

    method RemoveUser(userID: Id) returns (ok: bool)
      modifies this`users, db
      ensures Infos(users) == UserRemoved(old(Infos(users)), userID, ok)
      ensures !old(Has(Infos(users), userID)) ==> !ok
      ensures db.stored == if ok then Store(old(db.stored), poolID, Infos(users)) else old(db.stored)
      ensures old(Agrees()) ==> Agrees()
    {
      hide *;
      var i := LookUpUser(userID);
      ghost var s, stored := Infos(users), db.stored;
      RemovedOrNot(s, userID, i);
      AgreementIs();
      if i == |users| {
        ok := false;
      } else {
        var user := users[i];
        CutUser(i);
        ok := Update();
        if !ok {
          PushUser(user);
        }
        RemovedAgrees(s, stored, userID, ok);
      }
    }

    lemma RemovedAgrees(s: Record, stored: map<Id, Record>, userID: Id, ok: bool)
      requires Has(s, userID) && Infos(users) == UserRemoved(s, userID, ok)
      requires db.stored == if ok then Store(stored, poolID, Infos(users)) else stored
      ensures Matches(s, stored, poolID) ==> Agrees()
    {
      if Matches(s, stored, poolID) { UserRemovedMatches(s, stored, poolID, userID, ok); }
    }

    /** Users with different ids are different objects. */
    ghost predicate Separate()
      reads this`users
    {
      forall i, j | 0 <= i < j < |users| :: users[i].userID != users[j].userID
    }

    /** A write of one user's devices changes only this user's entry. */
    method SetDevices(ghost i: nat, user: UserInfo, devices: seq<Id>)
      requires Separate() && i < |users| && users[i] == user
      modifies user`devices
      ensures user.devices == devices
      ensures Infos(users) == old(Infos(users))[i := UserRecord(user.userID, devices)]
    {
      user.devices := devices;
      InfosAre(users, old(Infos(users))[i := UserRecord(user.userID, devices)]);
    }

    lemma UniqueIsSeparate()
      requires Unique(Infos(users))
      ensures Separate()
    {
    }

    method AddDevice(userID: Id, deviceID: Id) returns (ok: bool)
      requires Unique(Infos(users))
      modifies users, db
      ensures Infos(users) == DeviceAdded(old(Infos(users)), userID, deviceID, ok)
      ensures !old(Has(Infos(users), userID)) ==> !ok
      ensures old(HasDevice(Infos(users), userID, deviceID)) ==> ok
      ensures db.stored ==
        if ok && !old(HasDevice(Infos(users), userID, deviceID)) then Store(old(db.stored), poolID, Infos(users))
        else old(db.stored)
      ensures old(Agrees()) ==> Agrees()
    {
      hide *;
      var i := LookUpUser(userID);
      ghost var s, stored := Infos(users), db.stored;
      DeviceAddedOrNot(s, userID, deviceID, i);
      AgreementIs();
      if i == |users| {
        ok := false;
      } else if deviceID in users[i].devices {
        ok := true;
      } else {
        UniqueIsSeparate();
        var user := users[i];
        SetDevices(i, user, user.devices + [deviceID]);
        ok := Update();
        if !ok {
          SetDevices(i, user, user.devices[..|user.devices|-1]);
        }
        DeviceAddedAgrees(s, stored, userID, deviceID, ok);
      }
    }

    lemma DeviceAddedAgrees(s: Record, stored: map<Id, Record>, userID: Id, deviceID: Id, ok: bool)
      requires Has(s, userID) && !HasDevice(s, userID, deviceID) && Infos(users) == DeviceAdded(s, userID, deviceID, ok)
      requires db.stored == if ok then Store(stored, poolID, Infos(users)) else stored
      ensures Matches(s, stored, poolID) ==> Agrees()
    {
    }

    /** Tells whether the write succeeded and whether the user was taken out of the list. */
    method RemoveDevice(userID: Id, deviceID: Id) returns (ok: bool, userRemoved: bool)
      requires Unique(Infos(users))
      modifies this`users, users, db
      ensures Infos(users) == DeviceRemoved(old(Infos(users)), userID, deviceID, ok)
      ensures forall u | u in users :: u in old(users)
      ensures !old(HasDevice(Infos(users), userID, deviceID)) ==> !ok && !userRemoved
      ensures old(HasDevice(Infos(users), userID, deviceID)) ==>
        (userRemoved <==> old(IsOnlyDevice(Infos(users), userID, deviceID)))
      ensures db.stored == if ok then Store(old(db.stored), poolID, Infos(users)) else old(db.stored)
      ensures old(Agrees()) ==> (Agrees() <==> ok || !old(IsOnlyDevice(Infos(users), userID, deviceID)))
    {
      hide *;
      ok, userRemoved := false, false;
      var i := LookUpUser(userID);
      ghost var s, stored := Infos(users), db.stored;
      DeviceRemovedOrNot(s, userID, deviceID, i);
      AgreementIs();
      if i < |users| {
        var user := users[i];
        var j := LookUpDevice(user.devices, deviceID);
        if j < |user.devices| {
          ok, userRemoved := DropDevice(i, user, j, userID, deviceID);
          DeviceRemovedAgrees(s, stored, userID, deviceID, ok);
        }
      }
    }

    /** Device j of user i goes, is written, and is given back when the write fails. */
    method DropDevice(i: nat, user: UserInfo, j: nat, ghost userID: Id, ghost deviceID: Id)
      returns (ok: bool, userRemoved: bool)
      requires Unique(Infos(users)) && i == FindUser(Infos(users), userID) < |users| && users[i] == user
      requires j == FindDevice(user.devices, deviceID) < |user.devices|
      modifies this`users, user`devices, db
      ensures Infos(users) == DeviceRemoved(old(Infos(users)), userID, deviceID, ok)
      ensures forall u | u in users :: u in old(users)
      ensures userRemoved <==> old(IsOnlyDevice(Infos(users), userID, deviceID))
      ensures db.stored == if ok then Store(old(db.stored), poolID, Infos(users)) else old(db.stored)
    {
      hide *;
      ghost var s := Infos(users);
      DeviceRemovedOrNot(s, userID, deviceID, i);
      DeviceFound(s, i, user, userID, deviceID, j);
      UniqueIsSeparate();
      var device := user.devices[j];
      var devices := CutDevice(user.devices, j);
      userRemoved := Leave(i, user, devices);
      ok := Update();
      if !ok {
        GiveBack(user, device, i, userRemoved, s);
      }
    }

    lemma DeviceFound(s: Record, i: nat, user: UserInfo, userID: Id, deviceID: Id, j: nat)
      requires s == Infos(users) && i == FindUser(s, userID) < |users| && users[i] == user
      requires j == FindDevice(user.devices, deviceID) < |user.devices|
      ensures i < |s| && s[i].devices == user.devices && user.userID == userID && user.devices[j] == deviceID
      ensures HasDevice(s, userID, deviceID)
    {
    }

    /** A user without devices is taken out of the list. */
    method Leave(i: nat, user: UserInfo, devices: seq<Id>) returns (userRemoved: bool)
      requires Separate() && i < |users| && users[i] == user
      modifies this`users, user`devices
      ensures user.devices == devices && userRemoved == (|devices| == 0)
      ensures if userRemoved then user !in users else Separate() && users == old(users)
      ensures forall u | u in users :: u in old(users)
      ensures Infos(users) ==
        if userRemoved then SwapRemove(old(Infos(users)), i)
        else old(Infos(users))[i := UserRecord(user.userID, devices)]
    {
      hide *;
      ghost var s := Infos(users);
      SetDevices(i, user, devices);
      OverwrittenAnyway(s, i, UserRecord(user.userID, devices));
      userRemoved := false;
      if |user.devices| == 0 {
        CutIsSubset(users, i);
        CutUser(i);
        userRemoved := true;
      }
    }

    /** The device is put back into the user's list, even when the user is in no list any more. */
    method GiveBack(user: UserInfo, device: Id, ghost i: nat, ghost removed: bool, ghost s: Record)
      requires if removed then user !in users else Separate() && i < |users| && users[i] == user
      requires !removed ==> i < |s| && Infos(users) == s[i := UserRecord(user.userID, user.devices)]
      modifies user`devices
      ensures Infos(users) ==
        if removed then old(Infos(users)) else s[i := UserRecord(user.userID, old(user.devices) + [device])]
    {
      user.devices := user.devices + [device];
      InfosAre(users, if removed then old(Infos(users)) else s[i := UserRecord(user.userID, user.devices)]);
    }

    lemma DeviceRemovedAgrees(s: Record, stored: map<Id, Record>, userID: Id, deviceID: Id, ok: bool)
      requires HasDevice(s, userID, deviceID) && Infos(users) == DeviceRemoved(s, userID, deviceID, ok)
      requires db.stored == if ok then Store(stored, poolID, Infos(users)) else stored
      ensures Matches(s, stored, poolID) ==> (Agrees() <==> ok || !IsOnlyDevice(s, userID, deviceID))
    {
      if Matches(s, stored, poolID) { DeviceRemovedMatches(s, stored, poolID, userID, deviceID, ok); }
    }
  }

  lemma AddedOrNot(s: Record, user: UserRecord, userID: Id)
    requires user.userID == userID
    ensures UserAdded(s, user, false) == s
    ensures UserAdded(s, user, true) == if Has(s, userID) then s else s + [user]
    ensures Has(s, userID) <==> FindUser(s, userID) < |s|
  {
  }

  lemma RemovedOrNot(s: Record, userID: Id, i: nat)
    requires i == FindUser(s, userID)
    ensures Has(s, userID) <==> i < |s|
    ensures i == |s| ==> UserRemoved(s, userID, false) == s
    ensures i < |s| ==>
      UserRemoved(s, userID, true) == SwapRemove(s, i) && UserRemoved(s, userID, false) == SwapRemove(s, i) + [s[i]]
  {
  }

  lemma DeviceAddedOrNot(s: Record, userID: Id, deviceID: Id, i: nat)
    requires i == FindUser(s, userID)
    ensures Has(s, userID) <==> i < |s|
    ensures HasDevice(s, userID, deviceID) <==> i < |s| && deviceID in s[i].devices
    ensures HasDevice(s, userID, deviceID) ==> DeviceAdded(s, userID, deviceID, true) == s
    ensures DeviceAdded(s, userID, deviceID, false) == s
    ensures Has(s, userID) && !HasDevice(s, userID, deviceID) ==>
      DeviceAdded(s, userID, deviceID, true) == s[i := UserRecord(userID, s[i].devices + [deviceID])]
  {
  }

  lemma DeviceRemovedOrNot(s: Record, userID: Id, deviceID: Id, i: nat)
    requires i == FindUser(s, userID)
    ensures HasDevice(s, userID, deviceID) <==> i < |s| && FindDevice(s[i].devices, deviceID) < |s[i].devices|
    ensures !HasDevice(s, userID, deviceID) ==>
      DeviceRemoved(s, userID, deviceID, false) == s && !IsOnlyDevice(s, userID, deviceID)
    ensures HasDevice(s, userID, deviceID) ==>
      var j := FindDevice(s[i].devices, deviceID);
      var rest := SwapRemove(s[i].devices, j);
      && (IsOnlyDevice(s, userID, deviceID) <==> |rest| == 0)
      && DeviceRemoved(s, userID, deviceID, true) ==
           (if |rest| == 0 then SwapRemove(s, i) else s[i := UserRecord(userID, rest)])
      && DeviceRemoved(s, userID, deviceID, false) ==
           (if |rest| == 0 then SwapRemove(s, i) else s[i := UserRecord(userID, rest + [deviceID])])
  {
    if i < |s| && deviceID in s[i].devices {
      assert |s[i].devices| == 1 ==> s[i].devices == [s[i].devices[0]];
      var rest := SwapRemove(s[i].devices, FindDevice(s[i].devices, deviceID));
      assert rest + [] == rest;
    }
  }

  lemma InfosAre(users: seq<UserInfo>, s: Record)
    requires |users| == |s|
    requires forall i | 0 <= i < |s| :: s[i].userID == users[i].userID && s[i].devices == users[i].devices
    ensures Infos(users) == s
  {
  }

  lemma CutIsSubset<T>(s: seq<T>, i: nat)
    requires i < |s|
    ensures forall x | x in SwapRemove(s, i) :: x in s
  {
  }

  lemma OverwrittenAnyway<T>(s: seq<T>, i: nat, x: T)
    requires i < |s|
    ensures SwapRemove(s[i := x], i) == SwapRemove(s, i)
  {
  }

  method CutDevice(devices: seq<Id>, j: nat) returns (rest: seq<Id>)
    requires j < |devices|
    ensures rest == SwapRemove(devices, j)
  {
    rest := devices[j := devices[|devices|-1]];
    rest := rest[..|rest|-1];
  }

  /** The position of the device in the list, which is its length when it is not there. */
  method LookUpDevice(devices: seq<Id>, deviceID: Id) returns (j: nat)
    ensures j == FindDevice(devices, deviceID)
    ensures j < |devices| <==> deviceID in devices
  {
    j := 0;
    while j < |devices| && devices[j] != deviceID
      invariant j <= |devices| && deviceID !in devices[..j]
    {
      j := j + 1;
    }
    FirstDeviceIsFound(devices, deviceID, j);
  }

  lemma {:induction false} FirstDeviceIsFound(s: seq<Id>, deviceID: Id, i: nat)
    requires i <= |s| && (i < |s| ==> s[i] == deviceID) && deviceID !in s[..i]
    ensures FindDevice(s, deviceID) == i
  {
  }

  lemma {:induction false} FirstIsFound(s: Record, userID: Id, i: nat)
    requires i <= |s| && (i < |s| ==> s[i].userID == userID) && forall k | 0 <= k < i :: s[k].userID != userID
    ensures FindUser(s, userID) == i
  {
  }
}
