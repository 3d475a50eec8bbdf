/**
 * Generic create/read/update/delete operations over an entity repository,
 * translating storage conditions into the library's error kinds. The
 * repository is modelled as a map from guid to the stored entity.
 */
module CrudServiceUtils {
  import opened Wrappers
  import opened Http
  import ErrorResponses
  import GlobalErrorHandler

  type Uuid = string

  /** A stored record: its guid and everything else about it. */
  datatype Entity<D> = Entity(guid: Uuid, content: D)

  /** The errors a CRUD operation can signal before they reach `handleServiceError`. */
  datatype ServiceError =
    | DuplicateEntity(entityType: string, guid: Uuid)
    | EntityNotFound(entityType: string, guid: Uuid)
    | DataIntegrityViolation
    | Raised(exception: GlobalErrorHandler.Exception)

  /** The exception type an error has when it reaches the controller advice. */
  function KindOf(e: ServiceError): GlobalErrorHandler.ExceptionKind
  {
    match e
    case DuplicateEntity(_, _) => GlobalErrorHandler.DuplicateEntityException
    case EntityNotFound(_, _) => GlobalErrorHandler.EntityNotFoundException
    case DataIntegrityViolation => GlobalErrorHandler.OtherException
    case Raised(x) => x.kind
  }

  /** The repository calls and callback applications an operation performs, in order. */
  datatype Step<D> =
    | FindByGuid(guid: Uuid)
    | Save(entity: Entity<D>)
    | Delete(entity: Entity<D>)
    | ApplyEntity(entity: Entity<D>)
    | ApplyModify(entity: Entity<D>)

  /**
   * What a `Mono<E>` delivers: `Success(Some(e))` for a value, `Success(None)`
   * when it completes empty, `Failure(err)` for an error signal.
   */
  type Outcome<D> = Result<Option<Entity<D>>, ServiceError>

  const ContextPrefix: string := "Unexpected error when "

  /**
   * The context message handed to `handleServiceError`: the fixed prefix, the
   * action, a space, and the entity type.
   */
  function ContextMessage(action: string, entityType: string): (r: string)
    ensures |r| == |ContextPrefix| + |action| + 1 + |entityType|
    ensures r[..|ContextPrefix|] == ContextPrefix
    ensures r[|ContextPrefix|..|ContextPrefix| + |action|] == action
    ensures r[|ContextPrefix| + |action|] == ' '
    ensures r[|r| - |entityType|..] == entityType
  {
    ContextPrefix + action + " " + entityType
  }

  /** For one entity type, different actions give different context messages. */
  lemma ContextMessageNamesAction(a1: string, a2: string, entityType: string)
    requires ContextMessage(a1, entityType) == ContextMessage(a2, entityType)
    ensures a1 == a2
  {
    var m := ContextMessage(a1, entityType);
    assert a1 == m[|ContextPrefix|..|ContextPrefix| + |a1|];
  }

  /**
   * The values `flatMap(fnModify)` emits for `items`, in item order: one per
   * item whose `fnModify` delivers a value; an item whose `fnModify` completes
   * empty emits nothing.
   */
  function Outputs<D>(items: seq<Entity<D>>, fnModify: Entity<D> -> Outcome<D>): (r: seq<Entity<D>>)
    ensures |r| <= |items|
  {
    if items == [] then []
    else
      var last := fnModify(items[|items| - 1]);
      Outputs(items[..|items| - 1], fnModify) + (if last.Success? && last.value.Some? then [last.value.value] else [])
  }

  /** Every output is a value that some item's `fnModify` delivers. */
  lemma {:induction false} OutputsDelivered<D>(items: seq<Entity<D>>, fnModify: Entity<D> -> Outcome<D>)
    ensures forall x :: x in Outputs(items, fnModify) ==>
              exists k :: 0 <= k < |items| && fnModify(items[k]) == Success(Some(x))
  {
    if items != [] {
      var init := items[..|items| - 1];
      OutputsDelivered(init, fnModify);
      forall x | x in Outputs(items, fnModify)
        ensures exists k :: 0 <= k < |items| && fnModify(items[k]) == Success(Some(x))
      {
        if x in Outputs(init, fnModify) {
          var k :| 0 <= k < |init| && fnModify(init[k]) == Success(Some(x));
          assert items[k] == init[k];
        } else {
          assert fnModify(items[|items| - 1]) == Success(Some(x));
        }
      }
    }
  }

  /** Every value an item's `fnModify` delivers is an output. */
  lemma {:induction false} DeliveredOutputs<D>(items: seq<Entity<D>>, fnModify: Entity<D> -> Outcome<D>)
    ensures forall k :: 0 <= k < |items| && fnModify(items[k]).Success? && fnModify(items[k]).value.Some?
              ==> fnModify(items[k]).value.value in Outputs(items, fnModify)
  {
    if items != [] {
      var init := items[..|items| - 1];
      DeliveredOutputs(init, fnModify);
      assert forall k :: 0 <= k < |init| ==> items[k] == init[k];
    }
  }

  /**
   * When every call delivers a value, the outputs are those values, one per
   * item, in item order.
   */
  lemma {:induction false} OutputsInOrder<D>(items: seq<Entity<D>>, fnModify: Entity<D> -> Outcome<D>)
    requires forall k :: 0 <= k < |items| ==> fnModify(items[k]).Success? && fnModify(items[k]).value.Some?
    ensures |Outputs(items, fnModify)| == |items|
    ensures forall k :: 0 <= k < |items| ==> Outputs(items, fnModify)[k] == fnModify(items[k]).value.value
  {
    if items != [] {
      var init := items[..|items| - 1];
      assert forall k :: 0 <= k < |init| ==> items[k] == init[k];
      OutputsInOrder(init, fnModify);
    }
  }

  /**
   * `flatMap(fnModify)` over the retrieved records, taken one at a time: stops
   * at the first failing call, otherwise emits the values `Outputs` gives.
   */
  method ModifyEach<D>(items: seq<Entity<D>>, fnModify: Entity<D> -> Outcome<D>)
    returns (r: Result<seq<Entity<D>>, ServiceError>)
    ensures r.Success? <==> forall k :: 0 <= k < |items| ==> fnModify(items[k]).Success?
    ensures r.Success? ==> r.value == Outputs(items, fnModify)
    ensures r.Failure? ==> exists k :: 0 <= k < |items| && fnModify(items[k]).Failure? && r.error == fnModify(items[k]).error
  {
    var out: seq<Entity<D>> := [];
    var i := 0;
    while i < |items|
      invariant 0 <= i <= |items|
      invariant forall k :: 0 <= k < i ==> fnModify(items[k]).Success?
      invariant out == Outputs(items[..i], fnModify)
    {
      var m := fnModify(items[i]);
      if m.Failure? {
        assert fnModify(items[i]).Failure?;
        return Failure(m.error);
      }
      assert items[..i + 1][..i] == items[..i];
      out := out + (if m.value.Some? then [m.value.value] else []);
      i := i + 1;
    }
    assert items[..i] == items;
    r := Success(out);
  }

  /** Every record in `store` is stored under its own guid. */
  predicate StoredUnderOwnGuid<D>(store: map<Uuid, Entity<D>>)
  {
    forall g :: g in store ==> store[g].guid == g
  }

  class CrudService<D> {
    const entityType: string
    const handleServiceError: (string, ServiceError) -> ServiceError
    var store: map<Uuid, Entity<D>>
    ghost var steps: seq<Step<D>>

    /** Every record is stored under its own guid. */
    ghost predicate Valid()
      reads this
    {
      StoredUnderOwnGuid(store)
    }

    /**
     * `entityType` is the given name, or the simple name of the entity class
     * when none is given.
     */
    constructor (entityClassSimpleName: string, entityType: Option<string>,
                 handleServiceError: (string, ServiceError) -> ServiceError, store: map<Uuid, Entity<D>>)
      requires StoredUnderOwnGuid(store)
      ensures this.entityType == if entityType.Some? then entityType.value else entityClassSimpleName
      ensures this.handleServiceError == handleServiceError
      ensures Valid() && this.store == store && steps == []
    {
      this.entityType := if entityType.Some? then entityType.value else entityClassSimpleName;
      this.handleServiceError := handleServiceError;
      this.store := store;
      steps := [];
    }

    /** `onErrorResume(handleServiceError(...))`: every error passes through the handler. */
    function Recover<T>(r: Result<T, ServiceError>, action: string): (r': Result<T, ServiceError>)
      ensures r.Success? ==> r' == r
      ensures r.Failure? ==> r' == Failure(handleServiceError(ContextMessage(action, entityType), r.error))
    {
      match r
      case Success(v) => Success(v)
      case Failure(e) => Failure(handleServiceError(ContextMessage(action, entityType), e))
    }

    /**
     * `createEntity`: save, turn an integrity violation (the guid is already
     * stored) into a duplicate-entity error, and only after a successful save
     * apply `fnModify`. A failure of `fnModify` does not undo the save, and
     * when `fnModify` completes empty so does the whole operation.
     */
    method CreateEntity(entity: Entity<D>, fnModify: Entity<D> -> Outcome<D>)
      returns (r: Outcome<D>)
      requires Valid()
      modifies this
      ensures Valid()
      ensures entity.guid in old(store) ==>
                && store == old(store)
                && steps == old(steps) + [Save(entity)]
                && r == Failure(handleServiceError(ContextMessage("creating", entityType), DuplicateEntity(entityType, entity.guid)))
      ensures entity.guid !in old(store) ==>
                && store == old(store)[entity.guid := entity]
                && steps == old(steps) + [Save(entity), ApplyModify(entity)]
                && r == Recover(fnModify(entity), "creating")
    {
      steps := steps + [Save(entity)];
      var saved: Result<Entity<D>, ServiceError>;
      if entity.guid in store {
        saved := Failure(DataIntegrityViolation);
      } else {
        store := store[entity.guid := entity];
        saved := Success(entity);
      }
      if saved.Failure? && saved.error.DataIntegrityViolation? {
        saved := Failure(DuplicateEntity(entityType, entity.guid));
      }
      var modified: Outcome<D>;
      if saved.Success? {
        steps := steps + [ApplyModify(saved.value)];
        modified := fnModify(saved.value);
      } else {
        modified := Failure(saved.error);
      }
      r := Recover(modified, "creating");
    }

    /** `deleteEntity`: a missing guid is an entity-not-found error; otherwise exactly that record goes. */
    method DeleteEntity(guid: Uuid) returns (r: Result<(), ServiceError>)
      requires Valid()
      modifies this
      ensures Valid()
      ensures guid !in old(store) ==>
                && store == old(store)
                && steps == old(steps) + [FindByGuid(guid)]
                && r == Failure(handleServiceError(ContextMessage("deleting", entityType), EntityNotFound(entityType, guid)))
      ensures guid in old(store) ==>
                && store == old(store) - {guid}
                && steps == old(steps) + [FindByGuid(guid), Delete(old(store)[guid])]
                && r == Success(())
    {
      steps := steps + [FindByGuid(guid)];
      var found: Result<Entity<D>, ServiceError>;
      if guid in store {
        found := Success(store[guid]);
      } else {
        found := Failure(EntityNotFound(entityType, guid));
      }
      var deleted: Result<(), ServiceError>;
      if found.Success? {
        steps := steps + [Delete(found.value)];
        store := store - {found.value.guid};
        deleted := Success(());
      } else {
        deleted := Failure(found.error);
      }
      r := Recover(deleted, "deleting");
    }

    /** `findEntityByGuid`: a missing guid is an entity-not-found error; otherwise `fnModify` of the record. */
    method FindEntityByGuid(guid: Uuid, fnModify: Entity<D> -> Outcome<D>)
      returns (r: Outcome<D>)
      modifies this`steps
      ensures store == old(store)
      ensures guid !in store ==>
                && steps == old(steps) + [FindByGuid(guid)]
                && r == Failure(handleServiceError(ContextMessage("finding", entityType), EntityNotFound(entityType, guid)))
      ensures guid in store ==>
                && steps == old(steps) + [FindByGuid(guid), ApplyModify(store[guid])]
                && r == Recover(fnModify(store[guid]), "finding")
    {
      steps := steps + [FindByGuid(guid)];
      var found: Result<Entity<D>, ServiceError>;
      if guid in store {
        found := Success(store[guid]);
      } else {
        found := Failure(EntityNotFound(entityType, guid));
      }
      var modified: Outcome<D>;
      if found.Success? {
        steps := steps + [ApplyModify(found.value)];
        modified := fnModify(found.value);
      } else {
        modified := Failure(found.error);
      }
      r := Recover(modified, "finding");
    }

    /**
     * `updateEntity`: find the record, apply `fnEntity`, save the result in its
     * place, then apply `fnModify`. Nothing but the lookup happens for a
     * missing guid. An exception thrown by `fnEntity` becomes an error signal
     * (`map`), so nothing is saved. Saving a record whose new guid belongs to
     * another record violates the store's uniqueness and changes nothing.
     */
    method UpdateEntity(guid: Uuid, fnEntity: Entity<D> -> Result<Entity<D>, ServiceError>,
                        fnModify: Entity<D> -> Outcome<D>)
      returns (r: Outcome<D>)
      requires Valid()
      modifies this
      ensures Valid()
      ensures guid !in old(store) ==>
                && store == old(store)
                && steps == old(steps) + [FindByGuid(guid)]
                && r == Failure(handleServiceError(ContextMessage("updating", entityType), EntityNotFound(entityType, guid)))
      ensures guid in old(store) && fnEntity(old(store)[guid]).Failure? ==>
                && store == old(store)
                && steps == old(steps) + [FindByGuid(guid), ApplyEntity(old(store)[guid])]
                && r == Failure(handleServiceError(ContextMessage("updating", entityType), fnEntity(old(store)[guid]).error))
      ensures guid in old(store) && fnEntity(old(store)[guid]).Success? ==>
                var current := old(store)[guid];
                var changed := fnEntity(current).value;
                if changed.guid != guid && changed.guid in old(store) then
                  && store == old(store)
                  && steps == old(steps) + [FindByGuid(guid), ApplyEntity(current), Save(changed)]
                  && r == Failure(handleServiceError(ContextMessage("updating", entityType), DataIntegrityViolation))
                else
                  && store == (old(store) - {guid})[changed.guid := changed]
                  && steps == old(steps) + [FindByGuid(guid), ApplyEntity(current), Save(changed), ApplyModify(changed)]
                  && r == Recover(fnModify(changed), "updating")
    {
      steps := steps + [FindByGuid(guid)];
      if guid !in store {
        r := Recover(Failure(EntityNotFound(entityType, guid)), "updating");
        return;
      }
      var current := store[guid];
      steps := steps + [ApplyEntity(current)];
      var mapped := fnEntity(current);
      if mapped.Failure? {
        r := Recover(Failure(mapped.error), "updating");
        return;
      }
      var changed := mapped.value;
      steps := steps + [Save(changed)];
      var saved: Result<Entity<D>, ServiceError>;
      if changed.guid != guid && changed.guid in store {
        saved := Failure(DataIntegrityViolation);
      } else {
        store := (store - {guid})[changed.guid := changed];
        saved := Success(changed);
      }
      var modified: Outcome<D>;
      if saved.Success? {
        steps := steps + [ApplyModify(saved.value)];
        modified := fnModify(saved.value);
      } else {
        modified := Failure(saved.error);
      }
      r := Recover(modified, "updating");
    }

    /**
     * `listEntities`: apply `fnModify` to every retrieved record. The values
     * come out as a multiset, since the source's `flatMap` does not keep
     * their order; a record whose `fnModify` completes empty contributes
     * nothing. Any failure yields one of the failing errors, handled.
     */
    method ListEntities(retrieved: Result<seq<Entity<D>>, ServiceError>,
                        fnModify: Entity<D> -> Outcome<D>)
      returns (r: Result<seq<Entity<D>>, ServiceError>)
      ensures retrieved.Failure? ==> r == Failure(handleServiceError(ContextMessage("retrieving", entityType), retrieved.error))
      ensures retrieved.Success? ==>
                (r.Success? <==> forall k :: 0 <= k < |retrieved.value| ==> fnModify(retrieved.value[k]).Success?)
      ensures retrieved.Success? && r.Success? ==> multiset(r.value) == multiset(Outputs(retrieved.value, fnModify))
      ensures retrieved.Success? && r.Failure? ==>
                exists k :: 0 <= k < |retrieved.value| && fnModify(retrieved.value[k]).Failure?
                  && r.error == handleServiceError(ContextMessage("retrieving", entityType), fnModify(retrieved.value[k]).error)
    {
      if retrieved.Failure? {
        r := Recover(retrieved, "retrieving");
        return;
      }
      var modified := ModifyEach(retrieved.value, fnModify);
      r := Recover(modified, "retrieving");
    }
  }

  /** How the controller advice answers each error a CRUD operation can pass on unchanged. */
  lemma CrudErrorStatus(e: ServiceError, message: Option<string>, now: ErrorResponses.Instant)
    ensures var answer := GlobalErrorHandler.ForumException(GlobalErrorHandler.Exception(KindOf(e), message), now);
            && (e.DuplicateEntity? ==> answer.Some? && answer.value.statusCode == HttpStatus.Conflict && answer.value.statusCode.Value() == 409)
            && (e.EntityNotFound? ==> answer.Some? && answer.value.statusCode == HttpStatus.NotFound && answer.value.statusCode.Value() == 404)
            && (e.DataIntegrityViolation? ==> answer.None?)
  {
  }

}
