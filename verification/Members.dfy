/** Objects written member by member, those without a value left out. */
module Members {
  import opened Utils
  import opened Json

  /** A member of an object and its value, if it has one. */
  datatype Member = Member(key: string, value: Option<Json>)

  /** The members that have a value; the others are left out. */
  function Written(members: seq<Member>): seq<Field>
  {
    if members == [] then []
    else
      var first := members[0];
      (if first.value.Some? then [Field(first.key, first.value.value)] else []) + Written(members[1..])
  }

  predicate DistinctMembers(members: seq<Member>)
  {
    forall i, k :: 0 <= i < k < |members| ==> members[i].key != members[k].key
  }

  /** A record written member by member is read back member by member. */
  lemma {:induction false} FindWritten(members: seq<Member>, i: nat)
    requires DistinctMembers(members) && i < |members|
    ensures Find(Written(members), members[i].key) == members[i].value
    decreases |members|
  {
    var rest := Written(members[1..]);
    if members[0].value.Some? {
      assert Written(members)[1..] == rest;
    } else {
      assert [] + rest == rest;
    }
    if i == 0 {
      FindUnwritten(members[1..], members[0].key);
    } else {
      FindWritten(members[1..], i - 1);
    }
  }

  lemma {:induction false} FindUnwritten(members: seq<Member>, key: string)
    requires forall k :: 0 <= k < |members| ==> members[k].key != key
    ensures Find(Written(members), key) == None
    decreases |members|
  {
    if members == [] {
    } else {
      FindUnwritten(members[1..], key);
      var rest := Written(members[1..]);
      if members[0].value.Some? {
        assert Written(members)[1..] == rest;
      } else {
        assert [] + rest == rest;
      }
    }
  }

  /** What is written has no other members, each at most once, and only values that were given. */
  lemma {:induction false} WrittenFrom(members: seq<Member>)
    ensures forall k :: 0 <= k < |Written(members)| ==>
              exists i :: 0 <= i < |members| && members[i].key == Written(members)[k].key
                          && members[i].value == Some(Written(members)[k].value)
    ensures DistinctMembers(members) ==> DistinctKeys(Written(members))
    decreases |members|
  {
    if members == [] {
      assert Written(members) == [];
    } else {
      var rest, all := Written(members[1..]), Written(members);
      WrittenFrom(members[1..]);
      var d := |all| - |rest|;
      assert all[d..] == rest;
      forall k | 0 <= k < |all|
        ensures exists i :: 0 <= i < |members| && members[i].key == all[k].key && members[i].value == Some(all[k].value)
      {
        if k < d {
          assert members[0].key == all[k].key;
        } else {
          assert all[k] == rest[k - d];
          var i :| 0 <= i < |members[1..]| && members[1..][i].key == rest[k - d].key
                   && members[1..][i].value == Some(rest[k - d].value);
          assert members[i + 1] == members[1..][i];
        }
      }
      if DistinctMembers(members) {
        RestDistinct(members);
      }
    }
  }

  lemma RestDistinct(members: seq<Member>)
    requires members != [] && DistinctMembers(members) && DistinctKeys(Written(members[1..]))
    requires forall k :: 0 <= k < |Written(members[1..])| ==>
               exists i :: 0 <= i < |members[1..]| && members[1..][i].key == Written(members[1..])[k].key
                           && members[1..][i].value == Some(Written(members[1..])[k].value)
    ensures DistinctMembers(members[1..]) && DistinctKeys(Written(members))
  {
    var rest, all := Written(members[1..]), Written(members);
    assert DistinctMembers(members[1..]);
    if members[0].value.Some? {
      assert all[1..] == rest;
      forall k | 0 <= k < |rest| ensures rest[k].key != members[0].key {
        var i :| 0 <= i < |members[1..]| && members[1..][i].key == rest[k].key
                 && members[1..][i].value == Some(rest[k].value);
        assert members[i + 1].key == rest[k].key;
      }
    } else {
      assert all == rest;
    }
  }

  /** An object of valid values under distinct keys is valid, one level deeper than they are. */
  lemma WrittenValid(members: seq<Member>, n: nat)
    requires DistinctMembers(members)
    requires forall i :: 0 <= i < |members| && members[i].value.Some? ==>
               Valid(members[i].value.value) && Within(members[i].value.value, n)
    ensures Valid(Obj(Written(members))) && Within(Obj(Written(members)), n + 1)
  {
    WrittenFrom(members);
    var all := Written(members);
    forall k | 0 <= k < |all| ensures Valid(all[k].value) && Within(all[k].value, n) {
      var i :| 0 <= i < |members| && members[i].key == all[k].key && members[i].value == Some(all[k].value);
    }
  }
}
