// The read order of the virtual-key methods: no key twice, every subject before its index.
module KeyReads {
  import opened Options
  import opened Domain
  import opened KeyStore

  lemma {:induction false} ModelReadsOrdered(models: seq<ID>)
    requires NoDuplicates(models)
    ensures NoDuplicates(ModelReads(models))
    ensures forall i :: 0 <= i < |ModelReads(models)| && ModelReads(models)[i].IndexKey? ==>
                          SubjectKey(ModelReads(models)[i].ref) in ModelReads(models)[..i]
  {
    if models != [] {
      var head := [SubjectKey(ModelRef(models[0])), IndexKey(ModelRef(models[0]))];
      var tail, all := ModelReads(models[1..]), ModelReads(models);
      ModelReadsOrdered(models[1..]);
      ModelReadsMembers(models[1..]);
      ConcatDistinct(head, tail);
      forall i | 0 <= i < |all| && all[i].IndexKey?
        ensures SubjectKey(all[i].ref) in all[..i]
      {
        if i == 1 {
          assert all[..1] == [head[0]];
        } else {
          assert all[..i] == head + tail[..i - 2];
        }
      }
    }
  }

  // Entity and lookup, then the owners' subjects: no index yet.
  function Opening(op: Op): seq<Key>
    requires op.Mutation()
  {
    [EntityKey(op.KeyID())] +
    (if op.New().Some? then [HashLookup(op.New().value.keyHash)] else []) +
    SubjectReads(Owners(op))
  }

  function GlobalRead(op: Op): seq<Key> {
    if op.ReplaceKey? then [] else [GlobalIndex]
  }

  lemma Segments(op: Op, models: seq<ID>)
    requires op.Mutation()
    ensures ReadOrder(op, models) == Opening(op) + (ModelReads(models) + (GlobalRead(op) + IndexReads(Owners(op))))
  {
  }

  lemma OwnerReadMembers(op: Op)
    ensures forall key :: key in SubjectReads(Owners(op)) <==> key.SubjectKey? && key.ref in Owners(op)
    ensures forall key :: key in IndexReads(Owners(op)) <==> key.IndexKey? && key.ref in Owners(op)
    ensures NoDuplicates(SubjectReads(Owners(op))) && NoDuplicates(IndexReads(Owners(op)))
    ensures forall ref <- Owners(op) :: ref.UserRef? && Involves(op, ref)
  {
    OwnersDistinct(op);
    OwnerReads(Owners(op));
  }

  lemma OwnersDistinct(op: Op)
    ensures NoDuplicates(Owners(op)) && forall ref <- Owners(op) :: ref.UserRef? && Involves(op, ref)
  {
  }

  lemma {:induction false} OwnerReads(refs: seq<Ref>)
    ensures forall key :: key in SubjectReads(refs) <==> key.SubjectKey? && key.ref in refs
    ensures forall key :: key in IndexReads(refs) <==> key.IndexKey? && key.ref in refs
    ensures NoDuplicates(refs) ==> NoDuplicates(SubjectReads(refs)) && NoDuplicates(IndexReads(refs))
  {
    if refs != [] {
      OwnerReads(refs[1..]);
      assert forall ref :: ref in refs <==> ref == refs[0] || ref in refs[1..];
      if NoDuplicates(refs) {
        assert NoDuplicates(refs[1..]) && refs[0] !in refs[1..];
        ConcatDistinct([SubjectKey(refs[0])], SubjectReads(refs[1..]));
        ConcatDistinct([IndexKey(refs[0])], IndexReads(refs[1..]));
      }
    }
  }

  lemma OpeningMembers(op: Op)
    requires op.Mutation()
    ensures forall key <- Opening(op) :: Writes(op, key) && !key.IndexKey? && !key.GlobalIndex? && (key.SubjectKey? ==> key.ref.UserRef?)
    ensures NoDuplicates(Opening(op))
  {
    OwnerReadMembers(op);
    var entity := [EntityKey(op.KeyID())];
    var lookup := if op.New().Some? then [HashLookup(op.New().value.keyHash)] else [];
    ConcatDistinct(entity, lookup);
    ConcatDistinct(entity + lookup, SubjectReads(Owners(op)));
  }

  lemma MutationReads(op: Op, models: seq<ID>)
    requires op.Mutation() && ModelOrder(op, models)
    ensures NoDuplicates(ReadOrder(op, models))
    ensures forall key <- ReadOrder(op, models) :: Writes(op, key)
  {
    var global, indexes := GlobalRead(op), IndexReads(Owners(op));
    Segments(op, models);
    OwnerReadMembers(op);
    OpeningMembers(op);
    ModelReadsOrdered(models);
    ModelReadsMembers(models);
    ConcatDistinct(global, indexes);
    ConcatDistinct(ModelReads(models), global + indexes);
    ConcatDistinct(Opening(op), ModelReads(models) + (global + indexes));
  }

  // After the keys in `before`, each index among `keys` comes after its subject.
  ghost predicate SubjectsFirst(before: seq<Key>, keys: seq<Key>) {
    forall i :: 0 <= i < |keys| && keys[i].IndexKey? ==> SubjectKey(keys[i].ref) in before || SubjectKey(keys[i].ref) in keys[..i]
  }

  lemma SubjectsFirstConcat(before: seq<Key>, left: seq<Key>, right: seq<Key>)
    requires SubjectsFirst(before, left) && SubjectsFirst(before + left, right)
    ensures SubjectsFirst(before, left + right)
  {
    var all := left + right;
    forall i | 0 <= i < |all| && all[i].IndexKey?
      ensures SubjectKey(all[i].ref) in before || SubjectKey(all[i].ref) in all[..i]
    {
      if i < |left| {
        assert all[..i] == left[..i];
      } else {
        assert all[..i] == left + right[..i - |left|];
        assert all[i] == right[i - |left|];
      }
    }
  }

  lemma SubjectBeforeIndex(op: Op, models: seq<ID>, i: nat)
    requires op.Mutation() ==> ModelOrder(op, models)
    requires i < |ReadOrder(op, models)| && ReadOrder(op, models)[i].IndexKey?
    ensures SubjectKey(ReadOrder(op, models)[i].ref) in ReadOrder(op, models)[..i]
  {
    if op.Mutation() {
      var opening, middle, closing := Opening(op), ModelReads(models), GlobalRead(op) + IndexReads(Owners(op));
      Segments(op, models);
      OpeningMembers(op);
      assert forall k :: 0 <= k < |opening| ==> opening[k] in opening;
      ModelReadsOrdered(models);
      ClosingAfterOpening(op, opening + middle);
      SubjectsFirstConcat(opening, middle, closing);
      SubjectsFirstConcat([], opening, middle + closing);
    }
  }

  lemma ClosingAfterOpening(op: Op, before: seq<Key>)
    requires op.Mutation() && forall key <- Opening(op) :: key in before
    ensures SubjectsFirst(before, GlobalRead(op) + IndexReads(Owners(op)))
  {
    OwnerReadMembers(op);
    var closing := GlobalRead(op) + IndexReads(Owners(op));
    forall i | 0 <= i < |closing| && closing[i].IndexKey?
      ensures SubjectKey(closing[i].ref) in before
    {
      assert closing[i] in IndexReads(Owners(op));
      assert SubjectKey(closing[i].ref) in SubjectReads(Owners(op));
    }
  }

  lemma LookupAfterEntity(op: Op, models: seq<ID>, i: nat)
    requires op.Mutation() && ModelOrder(op, models)
    requires i < |ReadOrder(op, models)| && ReadOrder(op, models)[i].HashLookup?
    ensures op.New().Some? && ReadOrder(op, models)[i] == HashLookup(op.New().value.keyHash)
    ensures i > 0 && ReadOrder(op, models)[0] == EntityKey(op.KeyID())
  {
    var all := ReadOrder(op, models);
    OwnerReadMembers(op);
    ModelReadsMembers(models);
    Segments(op, models);
    assert all[i] in all;
  }

  lemma DistinctReads(op: Op, models: seq<ID>)
    requires op.Mutation() ==> ModelOrder(op, models)
    ensures NoDuplicates(ReadOrder(op, models))
  {
    if op.Mutation() {
      MutationReads(op, models);
    }
  }
}
