/** The index page's logic: the search filter over the store's pets, the
    "Total Pets" figure, and the handlers that route a save or a delete to the
    store. Rendering, toasts and the auth lifecycle are not modelled. */
module IndexPage {
  import opened Strings
  import opened Optional
  import opened PetStore

  /** A pet is shown when the lower-cased query occurs in its lower-cased
      name, species or breed. The empty query matches every pet, and a match
      needs a field at least as long as the query. */
  function Matches(pet: Pet, query: string): (r: bool)
    ensures query == "" ==> r
    ensures r ==> |query| <= |pet.name| || |query| <= |pet.species| || |query| <= |pet.breed|
  {
    var q := ToLower(query);
    assert query == "" ==> StartsWith(ToLower(pet.name), q) by {
      if query == "" {
        assert ToLower(pet.name) == q + ToLower(pet.name);
      }
    }
    Includes(ToLower(pet.name), q) || Includes(ToLower(pet.species), q)
      || Includes(ToLower(pet.breed), q)
  }

  /** `r` holds each matching pet as often as `pets` does, and no other pet. */
  ghost predicate KeepsEveryCopy(r: seq<Pet>, pets: seq<Pet>, query: string) {
    forall p :: multiset(r)[p] == if Matches(p, query) then multiset(pets)[p] else 0
  }

  /** `pets.filter(pet => Matches(pet, query))`: exactly the matching pets, in
      their original order. */
  function Filtered(pets: seq<Pet>, query: string): (r: seq<Pet>)
    ensures forall i :: 0 <= i < |r| ==> Matches(r[i], query)
    ensures forall i :: 0 <= i < |pets| && Matches(pets[i], query) ==> pets[i] in r
    ensures IsSubsequence(r, pets)
    ensures |r| <= |pets|
    decreases |pets|
  {
    if |pets| == 0 then []
    else if Matches(pets[0], query) then [pets[0]] + Filtered(pets[1..], query)
    else Filtered(pets[1..], query)
  }

  /** The filter keeps every copy of a matching pet, so equal records are all
      shown, and drops every copy of the others. */
  lemma {:induction false} FilterKeepsEveryCopy(pets: seq<Pet>, query: string)
    ensures KeepsEveryCopy(Filtered(pets, query), pets, query)
    decreases |pets|
  {
    if |pets| > 0 {
      FilterKeepsEveryCopy(pets[1..], query);
      assert pets == [pets[0]] + pets[1..];
    }
  }

  /** The filter keeps the whole list exactly when every pet matches. */
  lemma {:induction false} FilterKeepsAllIffAllMatch(pets: seq<Pet>, query: string)
    ensures Filtered(pets, query) == pets <==> forall i :: 0 <= i < |pets| ==> Matches(pets[i], query)
    decreases |pets|
  {
    if |pets| > 0 {
      var tail := Filtered(pets[1..], query);
      FilterKeepsAllIffAllMatch(pets[1..], query);
      if !Matches(pets[0], query) {
        assert Filtered(pets, query) == tail;
        assert |tail| <= |pets[1..]|;
      } else {
        assert Filtered(pets, query) == [pets[0]] + tail;
        assert pets == [pets[0]] + pets[1..];
        if Filtered(pets, query) == pets {
          assert tail == pets[1..];
          forall i | 0 < i < |pets| ensures Matches(pets[i], query) {
            assert pets[i] == pets[1..][i - 1];
          }
        }
      }
    }
  }

  /** An empty query shows every pet. */
  lemma EmptyQueryShowsAll(pets: seq<Pet>)
    ensures Filtered(pets, "") == pets
  {
    FilterKeepsAllIffAllMatch(pets, "");
  }

  /** The letter case of the query does not change the result. */
  lemma QueryIgnoresCase(pets: seq<Pet>, query: string)
    ensures Filtered(pets, ToUpper(query)) == Filtered(pets, query)
    ensures Filtered(pets, ToLower(query)) == Filtered(pets, query)
  {
    LowerIgnoresCase(query);
    SameLowerSameResult(pets, ToUpper(query), query);
    SameLowerSameResult(pets, ToLower(query), query);
  }

  lemma {:induction false} SameLowerSameResult(pets: seq<Pet>, q1: string, q2: string)
    requires ToLower(q1) == ToLower(q2)
    ensures Filtered(pets, q1) == Filtered(pets, q2)
    decreases |pets|
  {
    if |pets| > 0 {
      SameLowerSameResult(pets[1..], q1, q2);
    }
  }

  /** On the initial store, searching for "cat" shows Luna alone. */
  lemma CatFindsOnlyLuna()
    ensures Filtered(InitialPets(), "cat") == [InitialPets()[1]]
  {
    var pets := InitialPets();
    MaxIsNoCat();
    LunaIsACat();
    assert pets[1..] == [pets[1]];
    assert Filtered(pets, "cat") == Filtered(pets[1..], "cat");
    assert Filtered(pets[1..], "cat") == [pets[1]] + Filtered(pets[1..][1..], "cat");
  }

  lemma LunaIsACat()
    ensures Matches(InitialPets()[1], "cat")
  {
    var luna := InitialPets()[1];
    assert ToLower("cat") == "cat";
    assert ToLower(luna.species) == "cat";
    assert StartsWith(ToLower(luna.species), "cat");
  }

  lemma MaxIsNoCat()
    ensures !Matches(InitialPets()[0], "cat")
  {
    var max := InitialPets()[0];
    assert ToLower("cat") == "cat";
    assert ToLower(max.name) == "max";
    assert ToLower(max.species) == "dog";
    assert ToLower(max.breed) == "golden retriever";
    HasNoC("max");
    HasNoC("dog");
    HasNoC("golden retriever");
  }

  /** A string without a 'c' does not include "cat". */
  lemma HasNoC(s: string)
    requires 'c' !in s
    ensures !Includes(s, "cat")
  {
    forall i | 0 <= i && i + 3 <= |s| ensures !OccursAt(s, "cat", i) {
      assert s[i] in s;
      assert s[i..i + 3][0] == s[i];
    }
  }

  /** The fields a saved form carries, as a patch: every editable property
      is present, the id and creation time are not. */
  function PatchOf(data: NewPet): PetPatch {
    PetPatch(None, Some(data.name), Some(data.species), Some(data.breed),
             Some(data.age), Some(data.weight), Some(data.color), Some(data.gender),
             Some(data.imageUrl), Some(data.notes), None)
  }

  /** Saving an edit replaces every editable field with the form's value and
      keeps the pet's id and creation time. */
  lemma EditReplacesFormFields(p: Pet, data: NewPet)
    ensures Merge(p, PatchOf(data)) == Stamp(data, p.id, p.createdAt)
    ensures Unstamp(Merge(p, PatchOf(data))) == data
  {
  }

  /** The page's state: the shared store, the pet being edited, the pet
      awaiting delete confirmation, the search box and whether the edit dialog
      is open. */
  class Page {
    const store: Store
    var editingPet: Option<Pet>
    var deleteId: Option<string>
    var searchQuery: string
    var dialogOpen: bool

    constructor (store: Store)
      ensures this.store == store
      ensures editingPet == None && deleteId == None && searchQuery == "" && !dialogOpen
    {
      this.store := store;
      editingPet := None;
      deleteId := None;
      searchQuery := "";
      dialogOpen := false;
    }

    /** `filteredPets`: what the grid shows. */
    function FilteredPets(): (r: seq<Pet>)
      reads this, store
      ensures IsSubsequence(r, store.pets) && |r| <= TotalPets()
      ensures searchQuery == "" ==> r == store.pets
      ensures KeepsEveryCopy(r, store.pets, searchQuery)
    {
      EmptyQueryShowsAll(store.pets);
      FilterKeepsEveryCopy(store.pets, searchQuery);
      Filtered(store.pets, searchQuery)
    }

    /** The "Total Pets" figure: the length of the store's list, which is
        what an empty search shows and bounds what any search shows. */
    function TotalPets(): (n: nat)
      reads this, store
      ensures n == |Filtered(store.pets, "")|
      ensures forall q :: |Filtered(store.pets, q)| <= n
    {
      EmptyQueryShowsAll(store.pets);
      |store.pets|
    }

    /** Typing in the search box: the grid follows the query, the total does
        not. */
    method SetSearchQuery(query: string)
      modifies this
      ensures searchQuery == query
      ensures TotalPets() == old(TotalPets())
      ensures FilteredPets() == Filtered(store.pets, query)
      ensures unchanged(store)
      ensures editingPet == old(editingPet) && deleteId == old(deleteId) && dialogOpen == old(dialogOpen)
    {
      searchQuery := query;
    }

    /** `handleEdit`: open the dialog on an existing pet. */
    method HandleEdit(pet: Pet)
      modifies this
      ensures editingPet == Some(pet) && dialogOpen
      ensures deleteId == old(deleteId) && searchQuery == old(searchQuery)
    {
      editingPet := Some(pet);
      dialogOpen := true;
    }

    /** `handleAddNew`: open the dialog on a blank form. */
    method HandleAddNew()
      modifies this
      ensures editingPet == None && dialogOpen
      ensures deleteId == old(deleteId) && searchQuery == old(searchQuery)
    {
      editingPet := None;
      dialogOpen := true;
    }

    /** `handleSave`: an edit updates the edited pet by id, anything else adds
        a new pet; never both. The store's actions cannot fail, so the edit
        state is always cleared. `nowMillis` and `createdAt` are the clock
        readings `addPet` takes. */
    method HandleSave(data: NewPet, nowMillis: nat, createdAt: Instant)
      modifies this, store
      ensures old(editingPet).Some? ==>
        store.pets == Updated(old(store.pets), old(editingPet).value.id, PatchOf(data))
      ensures old(editingPet).None? ==>
        store.pets == Added(old(store.pets), data, nowMillis, createdAt)
      ensures editingPet == None
      ensures deleteId == old(deleteId) && searchQuery == old(searchQuery)
        && dialogOpen == old(dialogOpen)
    {
      if editingPet.Some? {
        store.UpdatePet(editingPet.value.id, PatchOf(data));
      } else {
        store.AddPet(data, nowMillis, createdAt);
      }
      editingPet := None;
    }

    /** `handleDelete`: remember which pet to delete until it is confirmed. */
    method HandleDelete(id: string)
      modifies this
      ensures deleteId == Some(id)
      ensures editingPet == old(editingPet) && searchQuery == old(searchQuery)
        && dialogOpen == old(dialogOpen)
    {
      deleteId := Some(id);
    }

    /** `confirmDelete`: delete the remembered pet, if any (an empty id counts
        as none), and forget it. */
    method ConfirmDelete()
      modifies this, store
      ensures old(deleteId).Some? && old(deleteId).value != "" ==>
        store.pets == Deleted(old(store.pets), old(deleteId).value) && deleteId == None
      ensures old(deleteId).None? || old(deleteId) == Some("") ==>
        store.pets == old(store.pets) && deleteId == old(deleteId)
      ensures editingPet == old(editingPet) && searchQuery == old(searchQuery)
        && dialogOpen == old(dialogOpen)
    {
      if deleteId.Some? && deleteId.value != "" {
        store.DeletePet(deleteId.value);
        deleteId := None;
      }
    }
  }

  /** Whatever the query, the grid never shows more pets than the total, and
      it shows them all exactly when every pet matches. */
  lemma FilteredWithinTotal(pets: seq<Pet>, query: string)
    ensures |Filtered(pets, query)| <= |pets|
    ensures |Filtered(pets, query)| == |pets| <==> forall i :: 0 <= i < |pets| ==> Matches(pets[i], query)
  {
    FilterKeepsAllIffAllMatch(pets, query);
    if |Filtered(pets, query)| == |pets| {
      SubsequenceOfSameLength(Filtered(pets, query), pets);
    }
  }
}
