/**
 * SubscriptionService: the create-or-renew decision and the guarded ACTIVE -> CANCELED /
 * ACTIVE -> EXPIRED transitions, over an in-memory subscription store.
 */
module Service {
  import opened Wrappers
  import opened Entity
  import opened Dto
  import opened Validation
  import opened Validator
  import opened Mapper

  /** The failures the service raises: ValidationException (with every error),
      IllegalArgumentException (unknown id) and SubscriptionException (wrong status). */
  datatype ServiceError = ValidationFailure(errors: seq<Error>) | InvalidArgument | BusinessRule

  datatype Command = Cancel | Expire(now: Instant)

  /** The lifecycle: only an ACTIVE subscription can be canceled or expired. */
  function Transition(status: Status, command: Command): (r: Option<Status>)
    ensures r.Some? <==> status == ACTIVE
    ensures r.Some? ==> r.value != ACTIVE && (r.value == CANCELED <==> command == Cancel)
  {
    match status
    case ACTIVE => Some(if command == Cancel then CANCELED else EXPIRED)
    case CANCELED => None
    case EXPIRED => None
  }

  /** The contents of the subscription store: rows by id and the next id to assign. */
  datatype StoreState = StoreState(rows: map<int, Subscription>, nextId: int)
  {
    /** SubscriptionDao.findById. */
    function FindById(id: int): (r: Option<Subscription>)
      ensures r.Some? <==> id in rows
      ensures r.Some? ==> r.value == rows[id]
      ensures r.Some? && WellFormed(this) ==> r.value.id == Some(id)
    {
      if id in rows then Some(rows[id]) else None
    }

    /** SubscriptionDao.findByUserId: the rows of one user, by id. */
    function FindByUserId(userId: int): (r: map<int, Subscription>)
      ensures r.Keys <= rows.Keys
      ensures forall k :: k in r ==> r[k] == rows[k] && r[k].userId == userId
      ensures forall k {:trigger rows[k]} :: k in rows && rows[k].userId == userId ==> k in r
    {
      map k | k in rows && rows[k].userId == userId :: rows[k]
    }
  }

  /** Every row is stored under its own id, and ids still to be assigned are above all of them. */
  ghost predicate WellFormed(st: StoreState)
  {
    forall k :: k in st.rows ==> st.rows[k].id == Some(k) && k < st.nextId
  }

  /** The renewal identity (user, provider, name). */
  predicate SameKey(a: Subscription, b: Subscription)
  {
    a.userId == b.userId && a.provider == b.provider && a.name == b.name
  }

  /** No two rows share a renewal identity. */
  ghost predicate KeyUnique(rows: map<int, Subscription>)
  {
    forall j, k :: j in rows && k in rows && j != k ==> !SameKey(rows[j], rows[k])
  }

  /** The store collaborator, as an in-memory table. */
  class SubscriptionStore {
    var rows: map<int, Subscription>
    var nextId: int

    function State(): StoreState
      reads this
    {
      StoreState(rows, nextId)
    }

    ghost predicate Valid()
      reads this
    {
      WellFormed(State())
    }

    constructor()
      ensures Valid() && rows == map[] && nextId == 1
    {
      rows := map[];
      nextId := 1;
    }

    /** SubscriptionDao.update: overwrites the row with s's id, if there is one, and returns s. */
    method Update(s: Subscription) returns (saved: Subscription)
      requires Valid() && s.id.Some?
      modifies this
      ensures Valid() && nextId == old(nextId) && saved == s
      ensures rows == if s.id.value in old(rows) then old(rows)[s.id.value := s] else old(rows)
    {
      if s.id.value in rows {
        rows := rows[s.id.value := s];
      }
      saved := s;
    }

    /** SubscriptionDao.insert: stores s under a newly assigned id. */
    method Insert(s: Subscription) returns (saved: Subscription)
      requires Valid()
      modifies this
      ensures Valid()
      ensures saved == s.(id := Some(old(nextId)))
      ensures old(nextId) !in old(rows)
      ensures rows == old(rows)[old(nextId) := saved] && nextId == old(nextId) + 1
    {
      saved := s.(id := Some(nextId));
      rows := rows[nextId := saved];
      nextId := nextId + 1;
    }

    /** SubscriptionDao.upsert: insert when s has no id yet, update otherwise. */
    method Upsert(s: Subscription) returns (saved: Subscription)
      requires Valid()
      modifies this
      ensures Valid()
      ensures s.id.None? ==>
        saved == s.(id := Some(old(nextId))) && rows == old(rows)[old(nextId) := saved] && nextId == old(nextId) + 1
      ensures s.id.Some? ==>
        saved == s && nextId == old(nextId) && rows == (if s.id.value in old(rows) then old(rows)[s.id.value := s] else old(rows))
    {
      if s.id.None? {
        saved := Insert(s);
      } else {
        saved := Update(s);
      }
    }
  }

  /** s is the subscription a request for (provider, name) renews. */
  predicate Matches(s: Subscription, provider: Provider, name: string)
  {
    s.provider == provider && s.name == name
  }

  /** k is the smallest id among the candidates that match (provider, name). */
  ghost predicate IsFirstMatch(candidates: map<int, Subscription>, provider: Provider, name: string, k: int)
  {
    && k in candidates && Matches(candidates[k], provider, name)
    && forall j :: j in candidates && Matches(candidates[j], provider, name) ==> k <= j
  }

  /** A non-empty set has a member. */
  lemma HasMember(ids: set<int>)
    requires ids != {}
    ensures exists k :: k in ids
  {
    if forall j :: j !in ids {
      assert false;
    }
  }

  /** A non-empty finite set of ids has a smallest element. */
  lemma {:induction false} SmallestExists(ids: set<int>)
    requires ids != {}
    ensures exists k :: k in ids && forall j :: j in ids ==> k <= j
  {
    HasMember(ids);
    var x :| x in ids;
    if exists j :: j in ids && j != x {
      var rest := ids - {x};
      var y :| y in ids && y != x;
      assert y in rest;
      SmallestExists(rest);
      var m :| m in rest && forall j :: j in rest ==> m <= j;
      var least := if x < m then x else m;
      forall j | j in ids ensures least <= j {
        if j != x { assert j in rest; }
      }
    }
  }

  /** The renewal target among a user's rows: the first that matches (provider, name). */
  ghost function RenewalTarget(candidates: map<int, Subscription>, provider: Provider, name: string): (r: Option<int>)
    ensures r.Some? ==> IsFirstMatch(candidates, provider, name, r.value)
    ensures r.None? ==> forall k :: k in candidates ==> !Matches(candidates[k], provider, name)
  {
    var ids := set k | k in candidates && Matches(candidates[k], provider, name);
    assert forall k :: k in candidates && Matches(candidates[k], provider, name) ==> k in ids;
    if ids == {} then None
    else
      SmallestExists(ids);
      var k :| k in ids && forall j :: j in ids ==> k <= j;
      Some(k)
  }

  /** The first-match search the service runs over the user's rows. */
  method FindRenewalTarget(candidates: map<int, Subscription>, provider: Provider, name: string)
    returns (target: Option<int>)
    ensures target.Some? ==> IsFirstMatch(candidates, provider, name, target.value)
    ensures target.None? ==> forall k :: k in candidates ==> !Matches(candidates[k], provider, name)
    ensures target == RenewalTarget(candidates, provider, name)
  {
    var unseen := candidates.Keys;
    target := None;
    while unseen != {}
      invariant unseen <= candidates.Keys
      invariant target.Some? ==> target.value in candidates && target.value !in unseen
      invariant target.Some? ==> Matches(candidates[target.value], provider, name)
      invariant forall j :: j in candidates && j !in unseen && Matches(candidates[j], provider, name) ==>
                  target.Some? && target.value <= j
      decreases unseen
    {
      HasMember(unseen);
      var k :| k in unseen;
      if Matches(candidates[k], provider, name) && (target.None? || k < target.value) {
        target := Some(k);
      }
      unseen := unseen - {k};
    }
  }

  /** What upsert returns and what the store holds afterwards. */
  ghost function UpsertSpec(st: StoreState, dto: CreateSubscriptionDto): (out: (Result<Subscription, ServiceError>, StoreState))
    requires WellFormed(st)
    ensures WellFormed(out.1)
    ensures out.0.Failure? <==> Errors(dto) != []
    ensures out.0.Failure? ==> out == (Failure(ValidationFailure(Errors(dto))), st)
    ensures out.0.Success? ==> var s := out.0.value;
      && s.id.Some? && s.id.value in out.1.rows && out.1.rows[s.id.value] == s
      && s.status == ACTIVE
      && forall k :: k in st.rows && Some(k) != s.id ==> k in out.1.rows && out.1.rows[k] == st.rows[k]
  {
    var errors := Errors(dto);
    if errors != [] then
      (Failure(ValidationFailure(errors)), st)
    else
      NoErrorsIffValid(dto);
      var provider := FindByName(dto.provider.value).value;
      var candidates := st.FindByUserId(dto.userId.value);
      match RenewalTarget(candidates, provider, dto.name.value)
      case Some(k) =>
        var renewed := candidates[k].(expirationDate := dto.expirationDate.value, status := ACTIVE);
        (Success(renewed), st.(rows := st.rows[k := renewed]))
      case None =>
        var created := Map(dto).value.(id := Some(st.nextId));
        (Success(created), StoreState(st.rows[st.nextId := created], st.nextId + 1))
  }

  /** What cancel or expire reports and what the store holds afterwards. */
  function CommandSpec(st: StoreState, id: int, command: Command): (out: (Outcome<ServiceError>, StoreState))
    ensures out.0 == Fail(InvalidArgument) <==> id !in st.rows
    ensures out.0 == Fail(BusinessRule) <==> id in st.rows && st.rows[id].status != ACTIVE
    ensures out.0 == Pass <==> id in st.rows && st.rows[id].status == ACTIVE
    ensures out.0.Fail? ==> out.1 == st
    ensures out.0 == Pass ==>
      && out.1.nextId == st.nextId
      && id in out.1.rows && out.1.rows == st.rows[id := out.1.rows[id]]
      && SameKey(out.1.rows[id], st.rows[id]) && out.1.rows[id].id == st.rows[id].id
      && (command == Cancel ==> out.1.rows[id] == st.rows[id].(status := CANCELED))
      && (command.Expire? ==> out.1.rows[id] == st.rows[id].(status := EXPIRED, expirationDate := command.now))
  {
    match st.FindById(id)
    case None => (Fail(InvalidArgument), st)
    case Some(s) =>
      match Transition(s.status, command)
      case None => (Fail(BusinessRule), st)
      case Some(next) =>
        var changed := match command
          case Cancel => s.(status := next)
          case Expire(now) => s.(status := next, expirationDate := now);
        (Pass, st.(rows := st.rows[id := changed]))
  }

  /** A valid request whose (user, provider, name) is already stored renews that row in place:
      same id, the request's expiration date, status ACTIVE, and no new row. */
  lemma RenewalOverwritesAndReactivates(st: StoreState, dto: CreateSubscriptionDto, k: int)
    requires WellFormed(st) && KeyUnique(st.rows) && IsValid(dto)
    requires k in st.rows && st.rows[k].userId == dto.userId.value && st.rows[k].name == dto.name.value
    requires Some(st.rows[k].provider) == FindByNameOpt(dto.provider.value)
    ensures var renewed := st.rows[k].(expirationDate := dto.expirationDate.value, status := ACTIVE);
      UpsertSpec(st, dto) == (Success(renewed), StoreState(st.rows[k := renewed], st.nextId))
  {
    NoErrorsIffValid(dto);
    var provider := FindByName(dto.provider.value).value;
    var candidates := st.FindByUserId(dto.userId.value);
    assert k in candidates;
    var target := RenewalTarget(candidates, provider, dto.name.value);
    assert target.Some?;
    assert SameKey(st.rows[target.value], st.rows[k]);
  }

  /** On any well-formed store, even one holding several rows with the same (user, provider,
      name), a valid request with a matching row renews the first such row in place: an old id
      with the same key, the request's expiration date, status ACTIVE, and no new row. */
  lemma RenewalOnAnyStore(st: StoreState, dto: CreateSubscriptionDto, j: int)
    requires WellFormed(st) && IsValid(dto)
    requires j in st.rows && st.rows[j].userId == dto.userId.value && st.rows[j].name == dto.name.value
    requires Some(st.rows[j].provider) == FindByNameOpt(dto.provider.value)
    ensures UpsertSpec(st, dto).0.Success?
    ensures var s := UpsertSpec(st, dto).0.value;
      && s.id.Some? && s.id.value in st.rows
      && SameKey(st.rows[s.id.value], st.rows[j]) && s.id.value <= j
      && s == st.rows[s.id.value].(expirationDate := dto.expirationDate.value, status := ACTIVE)
      && UpsertSpec(st, dto).1 == StoreState(st.rows[s.id.value := s], st.nextId)
  {
    NoErrorsIffValid(dto);
    var provider := FindByName(dto.provider.value).value;
    var candidates := st.FindByUserId(dto.userId.value);
    assert j in candidates && Matches(candidates[j], provider, dto.name.value);
  }

  /** A valid request matching none of the user's rows creates one: the mapped request under
      the next id, added beside every existing row. */
  lemma CreationWhenNoMatch(st: StoreState, dto: CreateSubscriptionDto)
    requires WellFormed(st) && IsValid(dto)
    requires forall k :: k in st.rows && st.rows[k].userId == dto.userId.value ==>
      st.rows[k].name != dto.name.value || Some(st.rows[k].provider) != FindByNameOpt(dto.provider.value)
    ensures Map(dto).Success?
    ensures st.nextId !in st.rows
    ensures var created := Map(dto).value.(id := Some(st.nextId));
      UpsertSpec(st, dto) == (Success(created), StoreState(st.rows[st.nextId := created], st.nextId + 1))
  {
    NoErrorsIffValid(dto);
    var candidates := st.FindByUserId(dto.userId.value);
    var provider := FindByName(dto.provider.value).value;
    assert forall k :: k in candidates ==> !Matches(candidates[k], provider, dto.name.value);
  }

  /** Upsert never gives two rows the same (user, provider, name). */
  lemma UpsertPreservesKeyUnique(st: StoreState, dto: CreateSubscriptionDto)
    requires WellFormed(st) && KeyUnique(st.rows)
    ensures KeyUnique(UpsertSpec(st, dto).1.rows)
  {
    var out := UpsertSpec(st, dto);
    if Errors(dto) == [] {
      NoErrorsIffValid(dto);
      var provider := FindByName(dto.provider.value).value;
      var candidates := st.FindByUserId(dto.userId.value);
      match RenewalTarget(candidates, provider, dto.name.value)
      case Some(k) =>
        assert out.1.rows.Keys == st.rows.Keys;
        assert forall j :: j in st.rows ==> SameKey(out.1.rows[j], st.rows[j]);
      case None =>
        var created := out.1.rows[st.nextId];
        assert created.userId == dto.userId.value && created.provider == provider && created.name == dto.name.value;
        forall j | j in st.rows ensures !SameKey(st.rows[j], created) {
          if st.rows[j].userId == dto.userId.value {
            assert j in candidates;
          }
        }
    }
  }

  /** Cancel and expire never give two rows the same (user, provider, name). */
  lemma CommandPreservesKeyUnique(st: StoreState, id: int, command: Command)
    requires KeyUnique(st.rows)
    ensures KeyUnique(CommandSpec(st, id, command).1.rows)
  {
    var out := CommandSpec(st, id, command);
    if out.0 == Pass {
      forall j, k | j in out.1.rows && k in out.1.rows && j != k
        ensures !SameKey(out.1.rows[j], out.1.rows[k])
      {
        assert SameKey(out.1.rows[j], st.rows[j]) && SameKey(out.1.rows[k], st.rows[k]);
      }
    }
  }

  /** Repeating a request changes nothing more: the second upsert renews the row the first one
      produced, to the same values. */
  lemma UpsertIdempotent(st: StoreState, dto: CreateSubscriptionDto)
    requires WellFormed(st)
    ensures var first := UpsertSpec(st, dto);
      UpsertSpec(first.1, dto) == first
  {
    var first := UpsertSpec(st, dto);
    if Errors(dto) == [] {
      NoErrorsIffValid(dto);
      var provider := FindByName(dto.provider.value).value;
      var saved := first.0.value;
      var k := saved.id.value;
      SavedIsFirstMatch(st, dto);
      assert RenewalTarget(first.1.FindByUserId(dto.userId.value), provider, dto.name.value) == Some(k);
      assert saved.(expirationDate := dto.expirationDate.value, status := ACTIVE) == saved;
      assert first.1.rows[k := saved] == first.1.rows;
    }
  }

  /** After a successful upsert, the saved row is the first match the same request finds. */
  lemma SavedIsFirstMatch(st: StoreState, dto: CreateSubscriptionDto)
    requires WellFormed(st) && IsValid(dto)
    ensures UpsertSpec(st, dto).0.Success?
    ensures var first := UpsertSpec(st, dto);
      IsFirstMatch(first.1.FindByUserId(dto.userId.value), FindByName(dto.provider.value).value,
                   dto.name.value, first.0.value.id.value)
  {
    NoErrorsIffValid(dto);
    var first := UpsertSpec(st, dto);
    var provider := FindByName(dto.provider.value).value;
    var candidates := st.FindByUserId(dto.userId.value);
    var candidates' := first.1.FindByUserId(dto.userId.value);
    var saved := first.0.value;
    var k := saved.id.value;
    assert k in candidates' && Matches(candidates'[k], provider, dto.name.value) by {
      match RenewalTarget(candidates, provider, dto.name.value)
      case Some(_) =>
      case None =>
        ResolvedNameIsUpperCase(dto.provider.value);
        assert Name(saved.provider) == Name(provider);
    }
    forall j | j in candidates' && Matches(candidates'[j], provider, dto.name.value)
      ensures k <= j
    {
      if j != k {
        assert j in candidates;
        assert RenewalTarget(candidates, provider, dto.name.value) == Some(k);
      }
    }
  }

  /** The store after a series of cancel and expire calls, each applied to the store the last one left. */
  function RunCommands(st: StoreState, calls: seq<(int, Command)>): StoreState
    decreases |calls|
  {
    if calls == [] then st else RunCommands(CommandSpec(st, calls[0].0, calls[0].1).1, calls[1..])
  }

  /** CANCELED and EXPIRED are terminal: no series of cancel and expire calls changes such a row. */
  lemma {:induction false} TerminalStatusIsFinal(st: StoreState, calls: seq<(int, Command)>, id: int)
    requires id in st.rows && st.rows[id].status != ACTIVE
    ensures id in RunCommands(st, calls).rows && RunCommands(st, calls).rows[id] == st.rows[id]
    decreases |calls|
  {
    if calls != [] {
      var next := CommandSpec(st, calls[0].0, calls[0].1).1;
      assert id in next.rows && next.rows[id] == st.rows[id];
      TerminalStatusIsFinal(next, calls[1..], id);
    }
  }

  /** SubscriptionService over a store. It keeps no state of its own. */
  class SubscriptionService {
    const store: SubscriptionStore

    constructor(store: SubscriptionStore)
      ensures this.store == store
    {
      this.store := store;
    }

    /** SubscriptionService.upsert: validate, then renew the user's matching subscription in
        place or create one through the mapper, and save it. */
    method Upsert(dto: CreateSubscriptionDto) returns (r: Result<Subscription, ServiceError>)
      requires store.Valid()
      modifies store
      ensures store.Valid()
      ensures (r, store.State()) == UpsertSpec(old(store.State()), dto)
    {
      var validation := Validate(dto);
      if validation.HasErrors() {
        return Failure(ValidationFailure(validation.GetErrors()));
      }
      NoErrorsIffValid(dto);
      var provider := FindByName(dto.provider.value).value;
      var candidates := store.State().FindByUserId(dto.userId.value);
      var target := FindRenewalTarget(candidates, provider, dto.name.value);
      var saved;
      match target {
        case Some(k) =>
          var found := candidates[k];
          saved := store.Upsert(found.(expirationDate := dto.expirationDate.value, status := ACTIVE));
        case None =>
          saved := store.Upsert(Map(dto).value);
      }
      r := Success(saved);
    }

    /** SubscriptionService.cancel: an ACTIVE subscription becomes CANCELED. */
    method Cancel(id: int) returns (outcome: Outcome<ServiceError>)
      requires store.Valid()
      modifies store
      ensures store.Valid()
      ensures (outcome, store.State()) == CommandSpec(old(store.State()), id, Command.Cancel)
    {
      var found := store.State().FindById(id);
      if found.None? {
        return Fail(InvalidArgument);
      }
      var s := found.value;
      if s.status != ACTIVE {
        return Fail(BusinessRule);
      }
      var _ := store.Update(s.(status := CANCELED));
      outcome := Pass;
    }

    /** SubscriptionService.expire: an ACTIVE subscription becomes EXPIRED, stamped with the
        clock's instant now. */
    method Expire(id: int, now: Instant) returns (outcome: Outcome<ServiceError>)
      requires store.Valid()
      modifies store
      ensures store.Valid()
      ensures (outcome, store.State()) == CommandSpec(old(store.State()), id, Command.Expire(now))
    {
      var found := store.State().FindById(id);
      if found.None? {
        return Fail(InvalidArgument);
      }
      var s := found.value;
      if s.status != ACTIVE {
        return Fail(BusinessRule);
      }
      var _ := store.Update(s.(status := EXPIRED, expirationDate := now));
      outcome := Pass;
    }
  }
}
