// Names shared by the control plane's stores.
module Domain {
  import opened Options

  type ID = string

  datatype Status = Active | Disabled | OtherStatus(text: string) {
    predicate Valid() {
      Active? || Disabled?
    }
  }

  // Corrupt stands for a record that does not decode to the type its key calls for.
  datatype Error = NotFound | Conflict | Corrupt

  // ---- Lists that may fail ----

  function Prepended<T>(first: seq<T>, rest: Result<seq<T>, Error>): Result<seq<T>, Error> {
    if rest.Err? then rest else Ok(first + rest.value)
  }

  lemma PrependedNone<T>(rest: Result<seq<T>, Error>)
    ensures Prepended([], rest) == rest
  {
    if rest.Ok? {
      assert [] + rest.value == rest.value;
    }
  }

  lemma PrependedTwice<T>(first: seq<T>, second: seq<T>, rest: Result<seq<T>, Error>)
    ensures Prepended(first, Prepended(second, rest)) == Prepended(first + second, rest)
  {
    if rest.Ok? {
      assert first + (second + rest.value) == first + second + rest.value;
    }
  }

  // ---- The IDs of an index ----

  function AddID(ids: seq<ID>, id: ID): seq<ID> {
    if id in ids then ids else ids + [id]
  }

  function RemoveID(ids: seq<ID>, id: ID): seq<ID> {
    if ids == [] then []
    else if ids[0] == id then RemoveID(ids[1..], id)
    else [ids[0]] + RemoveID(ids[1..], id)
  }

  function WithMember(ids: seq<ID>, id: ID, member: bool): seq<ID> {
    if member then AddID(ids, id) else RemoveID(ids, id)
  }

  lemma {:induction false} RemoveIDMembers(ids: seq<ID>, id: ID)
    ensures forall other :: other in RemoveID(ids, id) <==> other in ids && other != id
    ensures NoDuplicates(ids) ==> NoDuplicates(RemoveID(ids, id))
  {
    if ids != [] {
      RemoveIDMembers(ids[1..], id);
      if NoDuplicates(ids) {
        assert NoDuplicates(ids[1..]);
        assert ids[0] !in RemoveID(ids[1..], id);
      }
      assert forall other :: other in ids <==> other == ids[0] || other in ids[1..];
    }
  }

  lemma WithMemberMembers(ids: seq<ID>, id: ID, member: bool)
    ensures forall other :: other in WithMember(ids, id, member) <==> if other == id then member else other in ids
    ensures NoDuplicates(ids) ==> NoDuplicates(WithMember(ids, id, member))
  {
    RemoveIDMembers(ids, id);
  }
}
