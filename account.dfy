/**
 * An account (`AccountInfo`, kp.go:116-168): a map from permission label to
 * a pointer to a key-pair record.
 *
 * Encrypt and Decrypt walk the map in Go's unspecified order, stop at the
 * first member that fails and roll nothing back. The model states that
 * behaviour once, for any per-member step, in `ApplyInOrder`; the order the
 * loop actually took is returned by the methods as a ghost sequence, so
 * that their result is pinned down exactly for that order.
 */
module Account {
  import opened Wrappers
  import opened Errors
  import opened Cipher
  import opened KeyPair

  /** The outcome of a batch: the error returned, if any, and every member's record afterwards. */
  datatype BatchOutcome = BatchOutcome(err: Option<Error>, records: map<string, KeyRecord>)

  /** What one member operation does to the record under a label. */
  type Step = (string, KeyRecord) -> Result<KeyRecord, Error>

  /** The record after a step: the new record on success, the old one on failure. */
  function After(step: Step, l: string, r: KeyRecord): KeyRecord
  {
    match step(l, r)
    case Success(v) => v
    case Failure(_) => r
  }

  /**
   * Some member is encrypted (kp.go:134-141). When none is, every member
   * holds a usable raw key and no ciphertext; an empty account has none.
   */
  predicate AnyEncrypted(m: map<string, KeyRecord>): (b: bool)
    ensures !b ==> forall l :: l in m ==> m[l].rawKey != "" && m[l].encryptedKey == ""
    ensures m == map[] ==> !b
  {
    exists l :: l in m && m[l].IsEncrypted()
  }

  predicate Distinct(s: seq<string>)
  {
    forall i, j :: 0 <= i < j < |s| ==> s[i] != s[j]
  }

  /**
   * Moving a label from the labels still to visit to the end of the visit
   * order keeps the order free of repeats and the two together covering `keys`.
   */
  lemma Visit(order: seq<string>, todo: set<string>, l: string, keys: set<string>)
    requires l in todo && todo <= keys
    requires Distinct(order)
    requires forall x :: x in order ==> x in keys && x !in todo
    requires forall x :: x in keys ==> x in todo || x in order
    ensures Distinct(order + [l])
    ensures forall x :: x in order + [l] ==> x in keys && x !in todo - {l}
    ensures forall x :: x in keys ==> x in todo - {l} || x in order + [l]
  {
  }

  /** `order` visits every label of `m` exactly once. */
  predicate IsOrderOf(order: seq<string>, m: map<string, KeyRecord>)
  {
    Distinct(order) && (forall l :: l in order ==> l in m) && (forall l :: l in m ==> l in order)
  }

  /** Run `step` on the members in `order`, stopping at the first error and keeping what was done. */
  function ApplyInOrder(m: map<string, KeyRecord>, order: seq<string>, step: Step): (o: BatchOutcome)
    requires forall l :: l in order ==> l in m
    ensures o.records.Keys == m.Keys
    decreases |order|
  {
    if order == [] then BatchOutcome(None, m)
    else
      var done := ApplyInOrder(m, order[..|order| - 1], step);
      var l := order[|order| - 1];
      if done.err != None then done
      else
        match step(l, done.records[l])
        case Failure(e) => BatchOutcome(Some(e), done.records)
        case Success(r) => BatchOutcome(None, done.records[l := r])
  }

  /** The position in `order` of the first member whose step fails on its original record, or |order|. */
  function FirstFailure(m: map<string, KeyRecord>, order: seq<string>, step: Step): (k: nat)
    requires forall l :: l in order ==> l in m
    ensures k <= |order|
    ensures forall i :: 0 <= i < k ==> step(order[i], m[order[i]]).Success?
    ensures k < |order| ==> step(order[k], m[order[k]]).Failure?
    decreases |order|
  {
    if order == [] then 0
    else
      var n := |order| - 1;
      var k := FirstFailure(m, order[..n], step);
      if k < n then k
      else if step(order[n], m[order[n]]).Failure? then n
      else |order|
  }

  /** When every step succeeds there is no first failure. */
  lemma {:induction false} FirstFailureAllSucceed(m: map<string, KeyRecord>, order: seq<string>, step: Step)
    requires forall l :: l in order ==> l in m
    requires forall l :: l in order ==> step(l, m[l]).Success?
    ensures FirstFailure(m, order, step) == |order|
    decreases |order|
  {
    if order != [] {
      var n := |order| - 1;
      assert order[n] in order;
      FirstFailureAllSucceed(m, order[..n], step);
    }
  }

  /**
   * The batch semantics over distinct labels: the error returned is that of
   * the first member that fails; members before it hold their new records;
   * the failing member and all later or unvisited ones are unchanged.
   */
  lemma {:induction false} ApplyInOrderSpec(m: map<string, KeyRecord>, order: seq<string>, step: Step)
    requires forall l :: l in order ==> l in m
    requires Distinct(order)
    ensures var o := ApplyInOrder(m, order, step);
      var k := FirstFailure(m, order, step);
      && (o.err == None <==> k == |order|)
      && (k < |order| ==> o.err == Some(step(order[k], m[order[k]]).error))
      && (forall l :: l in m ==> o.records[l] == if l in order[..k] then After(step, l, m[l]) else m[l])
    decreases |order|
  {
    if order != [] {
      var n := |order| - 1;
      var prefix, last := order[..n], order[n];
      ApplyInOrderSpec(m, prefix, step);
      var k' := FirstFailure(m, prefix, step);
      if ApplyInOrder(m, prefix, step).err != None {
        assert order[..k'] == prefix[..k'];
      } else {
        assert prefix[..k'] == prefix;
        assert last !in prefix by {
          forall i | 0 <= i < n ensures prefix[i] != last {
            assert order[i] != order[n];
          }
        }
        ExtendSuccessfulPrefix(m, order, step);
      }
    }
  }

  /** The inductive step of ApplyInOrderSpec, once the prefix has succeeded on every member. */
  lemma ExtendSuccessfulPrefix(m: map<string, KeyRecord>, order: seq<string>, step: Step)
    requires order != []
    requires forall l :: l in order ==> l in m
    requires order[|order| - 1] !in order[..|order| - 1]
    requires FirstFailure(m, order[..|order| - 1], step) == |order| - 1
    requires ApplyInOrder(m, order[..|order| - 1], step).err == None
    requires forall l :: l in m ==>
      ApplyInOrder(m, order[..|order| - 1], step).records[l]
        == if l in order[..|order| - 1] then After(step, l, m[l]) else m[l]
    ensures var o := ApplyInOrder(m, order, step);
      var k := FirstFailure(m, order, step);
      && (o.err == None <==> k == |order|)
      && (k < |order| ==> o.err == Some(step(order[k], m[order[k]]).error))
      && (forall l :: l in m ==> o.records[l] == if l in order[..k] then After(step, l, m[l]) else m[l])
  {
    var n := |order| - 1;
    var prefix, last := order[..n], order[n];
    assert last in order;
    var done := ApplyInOrder(m, prefix, step);
    assert done.records[last] == m[last];
    var o := ApplyInOrder(m, order, step);
    if step(last, m[last]).Success? {
      assert order[..|order|] == order;
      forall l | l in m
        ensures o.records[l] == if l in order then After(step, l, m[l]) else m[l]
      {
        if l != last && l in order {
          var i :| 0 <= i < |order| && order[i] == l;
          assert prefix[i] == l;
        }
      }
    }
  }

  /** A batch that succeeded over all the labels succeeded on each member, from its original record. */
  lemma AllSucceeded(m: map<string, KeyRecord>, order: seq<string>, step: Step)
    requires IsOrderOf(order, m)
    requires ApplyInOrder(m, order, step).err == None
    ensures forall l :: l in m ==>
      step(l, m[l]).Success? && ApplyInOrder(m, order, step).records[l] == step(l, m[l]).value
  {
    ApplyInOrderSpec(m, order, step);
    var k := FirstFailure(m, order, step);
    assert order[..k] == order;
    forall l | l in m ensures step(l, m[l]).Success? {
      var i :| 0 <= i < |order| && order[i] == l;
      assert step(order[i], m[order[i]]).Success?;
    }
  }

  /** One more member visited after a successful prefix: its step decides the batch's error and its record. */
  lemma StepCommit(m: map<string, KeyRecord>, order: seq<string>, l: string, step: Step,
                   before: map<string, KeyRecord>, e: Option<Error>, now: KeyRecord)
    requires forall x :: x in order ==> x in m
    requires l in m
    requires ApplyInOrder(m, order, step) == BatchOutcome(None, before)
    requires match step(l, before[l])
      case Success(r) => e == None && now == r
      case Failure(x) => e == Some(x) && now == before[l]
    ensures ApplyInOrder(m, order + [l], step) == BatchOutcome(e, before[l := now])
  {
    assert (order + [l])[..|order|] == order;
    if e != None {
      assert before[l := now] == before;
    }
  }

  /** The member step of account encryption; `random(l)` is what the random source yields for member l. */
  function EncryptStep(password: Bytes, random: string -> SaltSeed, p: Primitives): Step
  {
    (l: string, r: KeyRecord) => EncryptRecord(r, password, random(l), p)
  }

  /** The member step of account decryption. */
  function DecryptStep(password: Bytes, p: Primitives): Step
  {
    (l: string, r: KeyRecord) => DecryptRecord(r, password, p)
  }

  /** AccountInfo.Encrypt over the visit order `order` (kp.go:157-168). */
  function EncryptAccount(m: map<string, KeyRecord>, order: seq<string>, password: Bytes,
                          random: string -> SaltSeed, p: Primitives): (o: BatchOutcome)
    requires forall l :: l in order ==> l in m
    ensures AnyEncrypted(m) ==> o == BatchOutcome(Some(AccountAlreadyEncrypted), m)
    ensures !AnyEncrypted(m) ==> o == ApplyInOrder(m, order, EncryptStep(password, random, p))
  {
    if AnyEncrypted(m) then BatchOutcome(Some(AccountAlreadyEncrypted), m)
    else ApplyInOrder(m, order, EncryptStep(password, random, p))
  }

  /** AccountInfo.Decrypt over the visit order `order` (kp.go:143-155). */
  function DecryptAccount(m: map<string, KeyRecord>, order: seq<string>, password: Bytes,
                          p: Primitives): (o: BatchOutcome)
    requires forall l :: l in order ==> l in m
    ensures !AnyEncrypted(m) ==> o == BatchOutcome(Some(NotEncrypted), m)
    ensures m == map[] ==> o.err == Some(NotEncrypted)
    ensures AnyEncrypted(m) ==> o == ApplyInOrder(m, order, DecryptStep(password, p))
  {
    if !AnyEncrypted(m) then BatchOutcome(Some(NotEncrypted), m)
    else ApplyInOrder(m, order, DecryptStep(password, p))
  }

  /**
   * Account encryption is all or nothing, whatever the order: with any member
   * already encrypted it fails before touching a member; otherwise every
   * member is encrypted with its own salt seed.
   */
  lemma EncryptAccountOutcome(m: map<string, KeyRecord>, order: seq<string>, password: Bytes,
                              random: string -> SaltSeed, p: Primitives)
    requires IsOrderOf(order, m)
    ensures var o := EncryptAccount(m, order, password, random, p);
      && (o.err == None <==> !AnyEncrypted(m))
      && (o.err != None ==> o.err == Some(AccountAlreadyEncrypted) && o.records == m)
      && (o.err == None ==> forall l :: l in m ==>
            EncryptRecord(m[l], password, random(l), p) == Success(o.records[l]))
      && (o.err == None && m != map[] ==> AnyEncrypted(o.records))
  {
    if !AnyEncrypted(m) {
      var step := EncryptStep(password, random, p);
      forall l | l in order ensures step(l, m[l]).Success? {
        assert !m[l].IsEncrypted();
      }
      FirstFailureAllSucceed(m, order, step);
      ApplyInOrderSpec(m, order, step);
      var o := ApplyInOrder(m, order, step);
      assert order[..|order|] == order;
      if m != map[] {
        var l :| l in m;
        assert o.records[l].IsEncrypted();
      }
    }
  }

  /**
   * Account decryption succeeds only if every member is encrypted and
   * decrypts: a mixed account always fails, on its first plaintext member
   * if no earlier member failed.
   */
  lemma DecryptAccountNeedsAllEncrypted(m: map<string, KeyRecord>, order: seq<string>, password: Bytes,
                                        p: Primitives)
    requires IsOrderOf(order, m)
    requires DecryptAccount(m, order, password, p).err == None
    ensures forall l :: l in m ==> m[l].IsEncrypted() && DecryptRecord(m[l], password, p).Success?
    ensures forall l :: l in m ==>
      Success(DecryptAccount(m, order, password, p).records[l]) == DecryptRecord(m[l], password, p)
  {
    AllSucceeded(m, order, DecryptStep(password, p));
  }

  /**
   * An account with an encrypted member "owner" that decrypts and a plaintext
   * member "active": visiting "owner" first decrypts it, then fails on
   * "active" with NotEncrypted and keeps the decrypted "owner"; visiting
   * "active" first fails at once and changes nothing.
   */
  lemma MixedAccountDecrypt(owner: KeyRecord, active: KeyRecord, password: Bytes, p: Primitives)
    requires DecryptRecord(owner, password, p).Success?
    requires !active.IsEncrypted()
    ensures var m := map["owner" := owner, "active" := active];
      && DecryptAccount(m, ["owner", "active"], password, p)
           == BatchOutcome(Some(NotEncrypted), m["owner" := DecryptRecord(owner, password, p).value])
      && DecryptAccount(m, ["active", "owner"], password, p) == BatchOutcome(Some(NotEncrypted), m)
  {
    var m := map["owner" := owner, "active" := active];
    assert m["owner"].IsEncrypted();
    var m1 := m["owner" := DecryptRecord(owner, password, p).value];
    assert m1["active"] == active;
    assert ["owner", "active"][..1] == ["owner"];
    assert ["active", "owner"][..1] == ["active"];
    assert ["owner"][..0] == [] && ["active"][..0] == [];
  }

  /** An account object; its members are key-pair objects, as Go's map of pointers. */
  class AccountInfo {
    var name: string
    var keypairs: map<string, KeyPairInfo>

    /** NewAccountInfo (kp.go:121-123): no name and no members. */
    constructor ()
      ensures name == "" && keypairs == map[]
    {
      name := "";
      keypairs := map[];
    }

    /** No two labels share one record object. */
    ghost predicate Valid()
      reads this
    {
      forall a, b :: a in keypairs && b in keypairs && a != b ==> keypairs[a] != keypairs[b]
    }

    /** The members' current records. */
    function Records(): map<string, KeyRecord>
      reads this, keypairs.Values
    {
      map l | l in keypairs :: keypairs[l].Value()
    }

    /** GetKeyPair (kp.go:125-132): unknown labels are refused, then the member's ToKeyPair decides. */
    function GetKeyPair(perm: string): (r: Result<LoadedKeys, Error>)
      reads this, keypairs.Values
      ensures perm !in keypairs ==> r == Failure(InvalidPermission(perm))
      ensures r.Success? <==> perm in keypairs && keypairs[perm].rawKey != ""
      ensures r.Success? ==> r.value.fromId == keypairs[perm].id
      ensures perm in keypairs && r.Failure? ==> keypairs[perm].IsEncrypted() && r.error == EmptyKeypair
    {
      if perm !in keypairs then Failure(InvalidPermission(perm))
      else keypairs[perm].Value().ToKeyPair()
    }

    /** IsEncrypted (kp.go:134-141): a loop that returns true at the first encrypted member. */
    method IsEncrypted() returns (b: bool)
      ensures b == AnyEncrypted(Records())
    {
      var todo := keypairs.Keys;
      while todo != {}
        invariant todo <= keypairs.Keys
        invariant forall l :: l in keypairs && l !in todo ==> !keypairs[l].IsEncrypted()
        decreases todo
      {
        var l :| l in todo;
        if keypairs[l].IsEncrypted() {
          assert Records()[l].IsEncrypted();
          return true;
        }
        todo := todo - {l};
      }
      assert forall l :: l in Records() ==> !Records()[l].IsEncrypted();
      return false;
    }

    /** Records() is determined pointwise by the members' values. */
    lemma RecordsAre(r: map<string, KeyRecord>)
      requires r.Keys == keypairs.Keys
      requires forall x :: x in keypairs ==> r[x] == keypairs[x].Value()
      ensures Records() == r
    {
    }

    /** One iteration of Encrypt's loop: encrypt the member under `l` and extend the batch by it. */
    method EncryptMember(l: string, password: Bytes, random: string -> SaltSeed, p: Primitives, ghost m0: map<string, KeyRecord>,
                        ghost order: seq<string>, ghost done: BatchOutcome)
      returns (e: Option<Error>, ghost next: BatchOutcome)
      requires Valid() && l in keypairs && m0.Keys == keypairs.Keys
      requires forall x :: x in order ==> x in m0
      requires done == ApplyInOrder(m0, order, EncryptStep(password, random, p)) && done.err == None
      requires forall x :: x in keypairs ==> done.records[x] == keypairs[x].Value()
      modifies keypairs[l]
      ensures next == ApplyInOrder(m0, order + [l], EncryptStep(password, random, p)) && next.err == e
      ensures next.records.Keys == keypairs.Keys
      ensures forall x :: x in keypairs ==> next.records[x] == keypairs[x].Value()
    {
      var kp := keypairs[l];
      e := kp.Encrypt(password, random(l), p);
      StepCommit(m0, order, l, EncryptStep(password, random, p), done.records, e, kp.Value());
      next := BatchOutcome(e, done.records[l := kp.Value()]);
      forall x | x in keypairs ensures next.records[x] == keypairs[x].Value() {
        if x != l {
          assert keypairs[x] != kp;
        }
      }
    }

    /**
     * The loop of Encrypt (kp.go:157-168): encrypt the members in Go's map order,
     * stopping at the first failure. `order` is the order the loop visited
     * the labels in, up to and including a failing one.
     */
    method EncryptAll(password: Bytes, random: string -> SaltSeed, p: Primitives)
      returns (err: Option<Error>, ghost order: seq<string>)
      requires Valid()
      modifies keypairs.Values
      ensures Distinct(order) && forall l :: l in order ==> l in keypairs
      ensures err == None ==> forall l :: l in keypairs ==> l in order
      ensures BatchOutcome(err, Records()) == ApplyInOrder(old(Records()), order, EncryptStep(password, random, p))
    {
      ghost var m0 := Records();
      order := [];
      ghost var done := ApplyInOrder(m0, order, EncryptStep(password, random, p));
      var todo := keypairs.Keys;
      ghost var members := keypairs;
      while todo != {}
        invariant keypairs == members && todo <= members.Keys && m0.Keys == members.Keys
        invariant Distinct(order)
        invariant forall l :: l in order ==> l in members.Keys && l !in todo
        invariant forall l :: l in members.Keys ==> l in todo || l in order
        invariant done == ApplyInOrder(m0, order, EncryptStep(password, random, p)) && done.err == None
        invariant forall x :: x in keypairs ==> done.records[x] == keypairs[x].Value()
        decreases todo
      {
        var l :| l in todo;
        var e;
        e, done := EncryptMember(l, password, random, p, m0, order, done);
        Visit(order, todo, l, members.Keys);
        order := order + [l];
        if e.Some? {
          RecordsAre(done.records);
          return e, order;
        }
        todo := todo - {l};
      }
      RecordsAre(done.records);
      return None, order;
    }

    /**
     * Encrypt (kp.go:157-168). `order` is the order the loop visited the
     * labels in, up to and including a failing one.
     */
    method Encrypt(password: Bytes, random: string -> SaltSeed, p: Primitives)
      returns (err: Option<Error>, ghost order: seq<string>)
      requires Valid()
      modifies keypairs.Values
      ensures Distinct(order) && forall l :: l in order ==> l in keypairs
      ensures err == None ==> IsOrderOf(order, old(Records()))
      ensures BatchOutcome(err, Records()) == EncryptAccount(old(Records()), order, password, random, p)
    {
      var encrypted := IsEncrypted();
      if encrypted {
        return Some(AccountAlreadyEncrypted), [];
      }
      err, order := EncryptAll(password, random, p);
    }

    /** One iteration of Decrypt's loop: decrypt the member under `l` and extend the batch by it. */
    method DecryptMember(l: string, password: Bytes, p: Primitives, ghost m0: map<string, KeyRecord>,
                        ghost order: seq<string>, ghost done: BatchOutcome)
      returns (e: Option<Error>, ghost next: BatchOutcome)
      requires Valid() && l in keypairs && m0.Keys == keypairs.Keys
      requires forall x :: x in order ==> x in m0
      requires done == ApplyInOrder(m0, order, DecryptStep(password, p)) && done.err == None
      requires forall x :: x in keypairs ==> done.records[x] == keypairs[x].Value()
      modifies keypairs[l]
      ensures next == ApplyInOrder(m0, order + [l], DecryptStep(password, p)) && next.err == e
      ensures next.records.Keys == keypairs.Keys
      ensures forall x :: x in keypairs ==> next.records[x] == keypairs[x].Value()
    {
      var kp := keypairs[l];
      e := kp.Decrypt(password, p);
      StepCommit(m0, order, l, DecryptStep(password, p), done.records, e, kp.Value());
      next := BatchOutcome(e, done.records[l := kp.Value()]);
      forall x | x in keypairs ensures next.records[x] == keypairs[x].Value() {
        if x != l {
          assert keypairs[x] != kp;
        }
      }
    }

    /**
     * The loop of Decrypt (kp.go:143-155): decrypt the members in Go's map order,
     * stopping at the first failure. `order` is the order the loop visited
     * the labels in, up to and including a failing one.
     */
    method DecryptAll(password: Bytes, p: Primitives)
      returns (err: Option<Error>, ghost order: seq<string>)
      requires Valid()
      modifies keypairs.Values
      ensures Distinct(order) && forall l :: l in order ==> l in keypairs
      ensures err == None ==> forall l :: l in keypairs ==> l in order
      ensures BatchOutcome(err, Records()) == ApplyInOrder(old(Records()), order, DecryptStep(password, p))
    {
      ghost var m0 := Records();
      order := [];
      ghost var done := ApplyInOrder(m0, order, DecryptStep(password, p));
      var todo := keypairs.Keys;
      ghost var members := keypairs;
      while todo != {}
        invariant keypairs == members && todo <= members.Keys && m0.Keys == members.Keys
        invariant Distinct(order)
        invariant forall l :: l in order ==> l in members.Keys && l !in todo
        invariant forall l :: l in members.Keys ==> l in todo || l in order
        invariant done == ApplyInOrder(m0, order, DecryptStep(password, p)) && done.err == None
        invariant forall x :: x in keypairs ==> done.records[x] == keypairs[x].Value()
        decreases todo
      {
        var l :| l in todo;
        var e;
        e, done := DecryptMember(l, password, p, m0, order, done);
        Visit(order, todo, l, members.Keys);
        order := order + [l];
        if e.Some? {
          RecordsAre(done.records);
          return e, order;
        }
        todo := todo - {l};
      }
      RecordsAre(done.records);
      return None, order;
    }

    /**
     * Decrypt (kp.go:143-155). `order` is the order the loop visited the
     * labels in, up to and including a failing one.
     */
    method Decrypt(password: Bytes, p: Primitives)
      returns (err: Option<Error>, ghost order: seq<string>)
      requires Valid()
      modifies keypairs.Values
      ensures Distinct(order) && forall l :: l in order ==> l in keypairs
      ensures err == None ==> IsOrderOf(order, old(Records()))
      ensures BatchOutcome(err, Records()) == DecryptAccount(old(Records()), order, password, p)
    {
      var encrypted := IsEncrypted();
      if !encrypted {
        return Some(NotEncrypted), [];
      }
      err, order := DecryptAll(password, p);
    }
  }
}
