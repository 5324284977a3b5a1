/** GetAllPetsQueryHandler.Handle: the pets list, each pet joined with the display
    name of its pet type. */
module PetQueries {
  import opened Base
  import opened PetErrors
  import Pets
  import PetTypes

  const UnknownType: string := "Unknown"

  datatype PetListItemDto = PetListItemDto(id: Guid, name: string, petType: string, status: string)

  predicate UniqueIds(types: seq<PetTypes.PetTypeData>) {
    forall i, j :: 0 <= i < j < |types| ==> types[i].id != types[j].id
  }

  /** ToDictionary(pt => pt.Id, pt => pt.Name): adds the types in order and throws
      ArgumentException on a repeated key. */
  function ToDictionary(types: seq<PetTypes.PetTypeData>): Result<map<Guid, string>, Failure>
    decreases |types|
  {
    if types == [] then Success(map[])
    else
      var last := types[|types| - 1];
      match ToDictionary(types[..|types| - 1])
      case Failure(e) => Failure(e)
      case Success(m) =>
        if last.id in m then Failure(ArgumentError("key"))
        else Success(m[last.id := last.name])
  }

  /** The dictionary is built exactly when the ids are distinct, and then maps
      each type's id to its name and nothing else; otherwise the error is the
      ArgumentException. */
  lemma {:induction false} ToDictionarySpec(types: seq<PetTypes.PetTypeData>)
    ensures var r := ToDictionary(types);
      (r.Success? <==> UniqueIds(types))
      && (r.Failure? ==> r.error == ArgumentError("key"))
      && (r.Success? ==> forall t :: t in types ==> t.id in r.value && r.value[t.id] == t.name)
      && (r.Success? ==> forall id :: id in r.value ==> exists t :: t in types && t.id == id)
    decreases |types|
  {
    if types != [] {
      var last := types[|types| - 1];
      var front := types[..|types| - 1];
      ToDictionarySpec(front);
      UniqueIdsSnoc(front, last);
      assert types == front + [last];
    }
  }

  lemma UniqueIdsSnoc(front: seq<PetTypes.PetTypeData>, last: PetTypes.PetTypeData)
    ensures UniqueIds(front + [last]) <==> UniqueIds(front) && forall t :: t in front ==> t.id != last.id
  {
    var s := front + [last];
    if UniqueIds(s) {
      forall t | t in front ensures t.id != last.id {
        var i :| 0 <= i < |front| && front[i] == t;
        assert s[i] == t && s[|s| - 1] == last;
      }
      forall i, j | 0 <= i < j < |front| ensures front[i].id != front[j].id {
        assert s[i] == front[i] && s[j] == front[j];
      }
    }
  }

  /** One DTO per pet, in order: its id, name and status string, and the name of
      the pet type with its PetTypeId or "Unknown". Inactive types are included. */
  function GetAllPets(pets: seq<Pets.PetData>, types: seq<PetTypes.PetTypeData>): (r: Result<seq<PetListItemDto>, Failure>)
    ensures r.Success? <==> UniqueIds(types)
    ensures r.Success? ==> |r.value| == |pets|
    ensures r.Success? ==> forall i :: 0 <= i < |pets| ==>
      r.value[i].id == pets[i].id && r.value[i].name == pets[i].name.value
      && r.value[i].status == pets[i].status.ToString()
    ensures r.Success? ==> forall i, j :: 0 <= i < |pets| && 0 <= j < |types| && types[j].id == pets[i].petTypeId ==>
      r.value[i].petType == types[j].name
    ensures r.Success? ==> forall i :: 0 <= i < |pets| && (forall t :: t in types ==> t.id != pets[i].petTypeId) ==>
      r.value[i].petType == UnknownType
  {
    ToDictionarySpec(types);
    var dict :- ToDictionary(types);
    Success(seq(|pets|, i requires 0 <= i < |pets| =>
      PetListItemDto(pets[i].id, pets[i].name.value,
                     if pets[i].petTypeId in dict then dict[pets[i].petTypeId] else UnknownType,
                     pets[i].status.ToString())))
  }

  /** The lookup sees only ids and names. */
  lemma {:induction false} DictionaryIgnoresOtherFields(types: seq<PetTypes.PetTypeData>, types': seq<PetTypes.PetTypeData>)
    requires |types| == |types'|
    requires forall j :: 0 <= j < |types| ==> types'[j].id == types[j].id && types'[j].name == types[j].name
    ensures ToDictionary(types) == ToDictionary(types')
    decreases |types|
  {
    if types != [] {
      var n := |types| - 1;
      var front, front' := types[..n], types'[..n];
      forall j | 0 <= j < n ensures front'[j].id == front[j].id && front'[j].name == front[j].name {
        assert front[j] == types[j] && front'[j] == types'[j];
      }
      DictionaryIgnoresOtherFields(front, front');
      assert types[n].id == types'[n].id && types[n].name == types'[n].name;
    }
  }

  /** Deactivating a pet type does not change how pets of that type are listed. */
  lemma ActivityIgnored(pets: seq<Pets.PetData>, types: seq<PetTypes.PetTypeData>, k: nat, now: Time)
    requires k < |types| && types[k].isActive
    ensures GetAllPets(pets, types) == GetAllPets(pets, types[k := PetTypes.DeactivateStep(types[k], now).value])
  {
    DictionaryIgnoresOtherFields(types, types[k := PetTypes.DeactivateStep(types[k], now).value]);
  }
}
