/** The client-side pet store: a list of `Pet` records that `addPet`,
    `updatePet` and `deletePet` replace by a new list, and `getPet` searches.
    Each new list is a pure function of the old one (`Added`, `Updated`,
    `Deleted`); the `Store` class holds the one mutable field. */
module PetStore {
  import opened Strings
  import opened Optional

  /** A point in time, in milliseconds since the Unix epoch (a `Date`). */
  type Instant = int

  datatype Gender = Male | Female

  /** A pet record. `age` and `weight` are JavaScript numbers; `imageUrl` and
      `notes` are optional properties. */
  datatype Pet = Pet(
    id: string,
    name: string,
    species: string,
    breed: string,
    age: real,
    weight: real,
    color: string,
    gender: Gender,
    imageUrl: Option<string>,
    notes: Option<string>,
    createdAt: Instant)

  /** `Omit<Pet, 'id' | 'createdAt'>`: what `addPet` is given. */
  datatype NewPet = NewPet(
    name: string,
    species: string,
    breed: string,
    age: real,
    weight: real,
    color: string,
    gender: Gender,
    imageUrl: Option<string>,
    notes: Option<string>)

  /** `Partial<Pet>`: `None` is a property the object does not have. For the
      optional properties, `Some(None)` is a property present with the value
      `undefined`, which the spread copies like any other value. */
  datatype PetPatch = PetPatch(
    id: Option<string>,
    name: Option<string>,
    species: Option<string>,
    breed: Option<string>,
    age: Option<real>,
    weight: Option<real>,
    color: Option<string>,
    gender: Option<Gender>,
    imageUrl: Option<Option<string>>,
    notes: Option<Option<string>>,
    createdAt: Option<Instant>)

  /** The initial contents of the store: Max the dog and Luna the cat, each
      with a photo and notes, listed in the order they were created. */
  function InitialPets(): (r: seq<Pet>)
    ensures |r| == 2
    ensures forall i :: 0 <= i < |r| ==> r[i].imageUrl.Some? && r[i].notes.Some?
    ensures r[0].createdAt < r[1].createdAt
  {
    [ Pet("1", "Max", "Dog", "Golden Retriever", 3.0, 30.0, "Golden", Male,
          Some("https://images.unsplash.com/photo-1633722715463-d30f4f325e24?w=400"),
          Some("Loves to play fetch"), 1705276800000),
      Pet("2", "Luna", "Cat", "Persian", 2.0, 4.5, "White", Female,
          Some("https://images.unsplash.com/photo-1573865526739-10c1d3a1abf8?w=400"),
          Some("Very calm and loves cuddles"), 1708387200000) ]
  }

  /** `{ ...pet, id, createdAt }`: the record `addPet` appends. */
  function Stamp(pet: NewPet, id: string, createdAt: Instant): (r: Pet)
    ensures r.id == id && r.createdAt == createdAt
    ensures Unstamp(r) == pet
  {
    Pet(id, pet.name, pet.species, pet.breed, pet.age, pet.weight, pet.color,
        pet.gender, pet.imageUrl, pet.notes, createdAt)
  }

  /** The fields of a record other than its id and creation time. */
  function Unstamp(p: Pet): NewPet {
    NewPet(p.name, p.species, p.breed, p.age, p.weight, p.color, p.gender,
           p.imageUrl, p.notes)
  }

  /** Stamping loses none of the supplied fields, and a record is its own
      fields stamped with its own id and creation time. */
  lemma StampRoundTrip(pet: NewPet, id: string, createdAt: Instant, p: Pet)
    ensures Unstamp(Stamp(pet, id, createdAt)) == pet
    ensures Stamp(pet, id, createdAt).id == id
    ensures Stamp(pet, id, createdAt).createdAt == createdAt
    ensures Stamp(Unstamp(p), p.id, p.createdAt) == p
  {
  }

  /** `{ ...pet, ...patch }`: every property the patch has overrides, every
      property it lacks is kept. */
  function Merge(p: Pet, patch: PetPatch): (r: Pet)
    ensures patch == EmptyPatch ==> r == p
    ensures r.id == p.id <==> patch.id.None? || patch.id == Some(p.id)
    ensures (patch.id.Some? ==> r.id == patch.id.value) && (patch.id.None? ==> r.id == p.id)
    ensures (patch.name.Some? ==> r.name == patch.name.value) && (patch.name.None? ==> r.name == p.name)
    ensures (patch.species.Some? ==> r.species == patch.species.value) && (patch.species.None? ==> r.species == p.species)
    ensures (patch.breed.Some? ==> r.breed == patch.breed.value) && (patch.breed.None? ==> r.breed == p.breed)
    ensures (patch.age.Some? ==> r.age == patch.age.value) && (patch.age.None? ==> r.age == p.age)
    ensures (patch.weight.Some? ==> r.weight == patch.weight.value) && (patch.weight.None? ==> r.weight == p.weight)
    ensures (patch.color.Some? ==> r.color == patch.color.value) && (patch.color.None? ==> r.color == p.color)
    ensures (patch.gender.Some? ==> r.gender == patch.gender.value) && (patch.gender.None? ==> r.gender == p.gender)
    ensures (patch.imageUrl.Some? ==> r.imageUrl == patch.imageUrl.value) && (patch.imageUrl.None? ==> r.imageUrl == p.imageUrl)
    ensures (patch.notes.Some? ==> r.notes == patch.notes.value) && (patch.notes.None? ==> r.notes == p.notes)
    ensures (patch.createdAt.Some? ==> r.createdAt == patch.createdAt.value) && (patch.createdAt.None? ==> r.createdAt == p.createdAt)
  {
    Pet(GetOr(patch.id, p.id), GetOr(patch.name, p.name),
        GetOr(patch.species, p.species), GetOr(patch.breed, p.breed),
        GetOr(patch.age, p.age), GetOr(patch.weight, p.weight),
        GetOr(patch.color, p.color), GetOr(patch.gender, p.gender),
        GetOr(patch.imageUrl, p.imageUrl), GetOr(patch.notes, p.notes),
        GetOr(patch.createdAt, p.createdAt))
  }

  const EmptyPatch := PetPatch(None, None, None, None, None, None, None, None, None, None, None)

  /** Merging an empty patch changes nothing, and merging the same patch twice
      is merging it once. */
  lemma MergeLaws(p: Pet, patch: PetPatch)
    ensures Merge(p, EmptyPatch) == p
    ensures Merge(Merge(p, patch), patch) == Merge(p, patch)
  {
  }

  /** `pets.map(pet => pet.id === id ? { ...pet, ...patch } : pet)`. */
  function Updated(pets: seq<Pet>, id: string, patch: PetPatch): (r: seq<Pet>)
    ensures |r| == |pets|
    ensures forall i :: 0 <= i < |pets| && pets[i].id != id ==> r[i] == pets[i]
    ensures forall i :: 0 <= i < |pets| && pets[i].id == id ==> r[i] == Merge(pets[i], patch)
    decreases |pets|
  {
    if |pets| == 0 then []
    else
      [if pets[0].id == id then Merge(pets[0], patch) else pets[0]]
        + Updated(pets[1..], id, patch)
  }

  /** How many records carry the given id. */
  function CountId(pets: seq<Pet>, id: string): (n: nat)
    ensures n <= |pets|
    decreases |pets|
  {
    if |pets| == 0 then 0
    else (if pets[0].id == id then 1 else 0) + CountId(pets[1..], id)
  }

  /** `a` is `b` with some elements left out, the rest in their original order. */
  predicate IsSubsequence<T(==)>(a: seq<T>, b: seq<T>)
    decreases |b|
  {
    if |a| == 0 then true
    else if |b| == 0 then false
    else if a[0] == b[0] then IsSubsequence(a[1..], b[1..])
    else IsSubsequence(a, b[1..])
  }

  /** `pets.filter(pet => pet.id !== id)`: exactly the records with another
      id, in their original order. */
  function Deleted(pets: seq<Pet>, id: string): (r: seq<Pet>)
    ensures forall i :: 0 <= i < |r| ==> r[i].id != id
    ensures forall i :: 0 <= i < |pets| && pets[i].id != id ==> pets[i] in r
    ensures IsSubsequence(r, pets)
    ensures |r| + CountId(pets, id) == |pets|
    decreases |pets|
  {
    if |pets| == 0 then []
    else if pets[0].id == id then Deleted(pets[1..], id)
    else [pets[0]] + Deleted(pets[1..], id)
  }

  /** `pets.find(pet => pet.id === id)`: the first record with the id, if any. */
  function FirstWithId(pets: seq<Pet>, id: string): (r: Option<Pet>)
    ensures r.None? <==> forall i :: 0 <= i < |pets| ==> pets[i].id != id
    ensures r.Some? ==>
      exists k ::
        && 0 <= k < |pets| && pets[k] == r.value && r.value.id == id
        && forall j :: 0 <= j < k ==> pets[j].id != id
    decreases |pets|
  {
    if |pets| == 0 then None
    else if pets[0].id == id then Some(pets[0])
    else
      var r := FirstWithId(pets[1..], id);
      if r.Some? then
        var k :| 0 <= k < |pets[1..]| && pets[1..][k] == r.value
          && forall j :: 0 <= j < k ==> pets[1..][j].id != id;
        assert forall j :: 0 <= j < k + 1 ==> pets[j].id != id by {
          forall j | 0 <= j < k + 1 ensures pets[j].id != id {
            if j > 0 { assert pets[j] == pets[1..][j - 1]; }
          }
        }
        assert pets[k + 1] == r.value;
        r
      else
        r
  }

  /** No two records share an id. */
  predicate UniqueIds(pets: seq<Pet>) {
    forall i, j :: 0 <= i < j < |pets| ==> pets[i].id != pets[j].id
  }

  /** The list after `addPet`: one record more, appended last, every earlier
      record where it was; the new record carries the supplied fields, the id
      `Date.now().toString()` and the given creation time. */
  function Added(pets: seq<Pet>, pet: NewPet, nowMillis: nat, createdAt: Instant): (r: seq<Pet>)
    ensures |r| == |pets| + 1
    ensures r[..|pets|] == pets
    ensures Unstamp(r[|pets|]) == pet
    ensures r[|pets|].id == NatToString(nowMillis) && r[|pets|].createdAt == createdAt
  {
    pets + [Stamp(pet, NatToString(nowMillis), createdAt)]
  }

  /** The initial store holds Max then Luna, with ids "1" and "2", and ids are
      unique in it. */
  lemma InitialContents()
    ensures |InitialPets()| == 2
    ensures InitialPets()[0].id == "1" && InitialPets()[0].name == "Max"
      && InitialPets()[0].species == "Dog"
    ensures InitialPets()[1].id == "2" && InitialPets()[1].name == "Luna"
      && InitialPets()[1].species == "Cat"
    ensures UniqueIds(InitialPets())
  {
  }

  /** A record added under an id no record had is what `getPet` finds for it. */
  lemma GetAfterAdd(pets: seq<Pet>, pet: NewPet, nowMillis: nat, createdAt: Instant)
    requires forall i :: 0 <= i < |pets| ==> pets[i].id != NatToString(nowMillis)
    ensures FirstWithId(Added(pets, pet, nowMillis, createdAt), NatToString(nowMillis))
      == Some(Stamp(pet, NatToString(nowMillis), createdAt))
    ensures UniqueIds(pets) ==> UniqueIds(Added(pets, pet, nowMillis, createdAt))
  {
    var r := Added(pets, pet, nowMillis, createdAt);
    var found := FirstWithId(r, NatToString(nowMillis));
    assert r[|pets|].id == NatToString(nowMillis);
    if found.Some? {
      var k :| 0 <= k < |r| && r[k] == found.value && found.value.id == NatToString(nowMillis);
      assert k == |pets|;
    }
  }

  /** Updating an id no record carries changes nothing. */
  lemma UpdateAbsentIsNoOp(pets: seq<Pet>, id: string, patch: PetPatch)
    requires forall i :: 0 <= i < |pets| ==> pets[i].id != id
    ensures Updated(pets, id, patch) == pets
  {
  }

  /** Updating twice with the same patch is updating once. A patch that
      moves the records to another id leaves none for the second update. */
  lemma UpdateIdempotent(pets: seq<Pet>, id: string, patch: PetPatch)
    ensures Updated(Updated(pets, id, patch), id, patch) == Updated(pets, id, patch)
  {
    var once := Updated(pets, id, patch);
    if patch.id.Some? && patch.id != Some(id) {
      UpdateAbsentIsNoOp(once, id, patch);
      return;
    }
    forall i | 0 <= i < |pets| && pets[i].id == id
      ensures Updated(once, id, patch)[i] == once[i]
    {
      MergeLaws(pets[i], patch);
    }
  }

  /** After an update that keeps the id, `getPet` finds the merged record. */
  lemma GetAfterUpdate(pets: seq<Pet>, id: string, patch: PetPatch)
    requires patch.id == None || patch.id == Some(id)
    requires FirstWithId(pets, id).Some?
    ensures FirstWithId(Updated(pets, id, patch), id)
      == Some(Merge(FirstWithId(pets, id).value, patch))
  {
    var r := Updated(pets, id, patch);
    var first := FirstWithId(pets, id).value;
    var k :| 0 <= k < |pets| && pets[k] == first && first.id == id
      && forall j :: 0 <= j < k ==> pets[j].id != id;
    var found := FirstWithId(r, id);
    assert r[k].id == id;
    var m :| 0 <= m < |r| && r[m] == found.value && found.value.id == id
      && forall j :: 0 <= j < m ==> r[j].id != id;
    assert m == k;
  }

  /** An update whose patch keeps the id keeps ids unique. */
  lemma UpdateKeepsUniqueIds(pets: seq<Pet>, id: string, patch: PetPatch)
    requires UniqueIds(pets)
    requires patch.id == None || patch.id == Some(id)
    ensures UniqueIds(Updated(pets, id, patch))
  {
  }

  /** Deleting an id no record carries changes nothing. */
  lemma {:induction false} DeleteAbsentIsNoOp(pets: seq<Pet>, id: string)
    requires forall i :: 0 <= i < |pets| ==> pets[i].id != id
    ensures Deleted(pets, id) == pets
    decreases |pets|
  {
    if |pets| > 0 {
      DeleteAbsentIsNoOp(pets[1..], id);
    }
  }

  /** Deleting is idempotent, and deleting two ids in either order gives the
      same list. */
  lemma {:induction false} DeleteLaws(pets: seq<Pet>, a: string, b: string)
    ensures Deleted(Deleted(pets, a), a) == Deleted(pets, a)
    ensures Deleted(Deleted(pets, a), b) == Deleted(Deleted(pets, b), a)
    decreases |pets|
  {
    DeleteAbsentIsNoOp(Deleted(pets, a), a);
    if |pets| > 0 {
      DeleteLaws(pets[1..], a, b);
    }
  }

  /** After `deletePet(id)`, `getPet(id)` finds nothing. */
  lemma GetAfterDelete(pets: seq<Pet>, id: string)
    ensures FirstWithId(Deleted(pets, id), id) == None
  {
  }

  /** A subsequence of a list with unique ids has unique ids. */
  lemma {:induction false} SubsequenceKeepsUniqueIds(a: seq<Pet>, b: seq<Pet>)
    requires IsSubsequence(a, b)
    requires UniqueIds(b)
    ensures UniqueIds(a)
    decreases |b|
  {
    if |a| > 0 && |b| > 0 {
      if a[0] == b[0] {
        SubsequenceKeepsUniqueIds(a[1..], b[1..]);
        forall j | 0 < j < |a| ensures a[0].id != a[j].id {
          SubsequenceMembers(a[1..], b[1..]);
          assert a[j] == a[1..][j - 1] && a[j] in a[1..];
          var m :| 0 <= m < |b[1..]| && b[1..][m] == a[j];
          assert b[m + 1] == a[j];
        }
      } else {
        SubsequenceKeepsUniqueIds(a, b[1..]);
      }
    }
  }

  /** Every element of a subsequence is an element of the sequence. */
  lemma {:induction false} SubsequenceMembers<T>(a: seq<T>, b: seq<T>)
    requires IsSubsequence(a, b)
    ensures forall x :: x in a ==> x in b
    decreases |b|
  {
    if |a| > 0 && |b| > 0 {
      if a[0] == b[0] {
        SubsequenceMembers(a[1..], b[1..]);
        assert a == [a[0]] + a[1..];
      } else {
        SubsequenceMembers(a, b[1..]);
      }
    }
  }

  /** A subsequence is no longer than the sequence, and one of the same
      length is the sequence itself. */
  lemma {:induction false} SubsequenceOfSameLength<T>(a: seq<T>, b: seq<T>)
    requires IsSubsequence(a, b)
    ensures |a| <= |b|
    ensures |a| == |b| ==> a == b
    decreases |b|
  {
    if |a| > 0 && |b| > 0 {
      if a[0] == b[0] {
        SubsequenceOfSameLength(a[1..], b[1..]);
        if |a| == |b| {
          assert a == [a[0]] + a[1..] && b == [b[0]] + b[1..];
        }
      } else {
        SubsequenceOfSameLength(a, b[1..]);
      }
    }
  }

  /** Deleting keeps ids unique. */
  lemma DeleteKeepsUniqueIds(pets: seq<Pet>, id: string)
    requires UniqueIds(pets)
    ensures UniqueIds(Deleted(pets, id))
  {
    SubsequenceKeepsUniqueIds(Deleted(pets, id), pets);
  }

  /** The store: one mutable list that each action replaces. */
  class Store {
    var pets: seq<Pet>

    constructor ()
      ensures pets == InitialPets()
    {
      pets := InitialPets();
    }

    /** `addPet(pet)`: `nowMillis` is `Date.now()`, `createdAt` is `new Date()`. */
    method AddPet(pet: NewPet, nowMillis: nat, createdAt: Instant)
      modifies this
      ensures pets == Added(old(pets), pet, nowMillis, createdAt)
    {
      pets := pets + [Stamp(pet, NatToString(nowMillis), createdAt)];
    }

    /** `updatePet(id, patch)`. */
    method UpdatePet(id: string, patch: PetPatch)
      modifies this
      ensures pets == Updated(old(pets), id, patch)
    {
      pets := Updated(pets, id, patch);
    }

    /** `deletePet(id)`. */
    method DeletePet(id: string)
      modifies this
      ensures pets == Deleted(old(pets), id)
    {
      pets := Deleted(pets, id);
    }

    /** `getPet(id)`: the first record with the id in the current list. */
    function GetPet(id: string): (r: Option<Pet>)
      reads this
      ensures r.None? <==> forall i :: 0 <= i < |pets| ==> pets[i].id != id
      ensures r.Some? ==> r.value in pets && r.value.id == id
    {
      FirstWithId(pets, id)
    }
  }
}
