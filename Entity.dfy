/** The persisted subscription entity and the closed provider and status enumerations. */
module Entity {
  import opened Wrappers
  import opened Text

  /** The instant type: a point in time on an abstract integer time line. */
  type Instant = int

  datatype Provider = GOOGLE | APPLE

  datatype Status = ACTIVE | CANCELED | EXPIRED

  /** A subscription row; id is None until the store assigns one on insert. */
  datatype Subscription = Subscription(
    id: Option<int>,
    userId: int,
    name: string,
    provider: Provider,
    expirationDate: Instant,
    status: Status)

  /** The strict lookup's failure (java.util.NoSuchElementException). */
  datatype LookupError = NoSuchElement

  /** Enum.name(): the constant's name as declared. */
  function Name(p: Provider): (n: string)
    ensures NoLowerCase(n) && |n| > 0
  {
    match p
    case GOOGLE => "GOOGLE"
    case APPLE => "APPLE"
  }

  /** Enum.values(), in declaration order. */
  const Values: seq<Provider> := [GOOGLE, APPLE]

  /** The first provider of ps whose name equals name ignoring case. */
  function FirstNamed(ps: seq<Provider>, name: string): (r: Option<Provider>)
    ensures r.Some? ==> r.value in ps && EqualsIgnoreCase(Name(r.value), name)
    ensures r.None? ==> forall p :: p in ps ==> !EqualsIgnoreCase(Name(p), name)
  {
    if ps == [] then None
    else if EqualsIgnoreCase(Name(ps[0]), name) then Some(ps[0])
    else FirstNamed(ps[1..], name)
  }

  /** Provider.findByNameOpt: the provider whose name equals name ignoring case, if any. */
  function FindByNameOpt(name: string): (r: Option<Provider>)
    ensures r.Some? <==> exists p: Provider :: EqualsIgnoreCase(Name(p), name)
    ensures r.Some? ==> EqualsIgnoreCase(Name(r.value), name)
  {
    FirstNamed(Values, name)
  }

  /** Provider.findByName: the same lookup, failing with NoSuchElement when nothing matches. */
  function FindByName(name: string): (r: Result<Provider, LookupError>)
    ensures r.Success? <==> FindByNameOpt(name).Some?
    ensures r.Success? ==> Some(r.value) == FindByNameOpt(name)
  {
    match FindByNameOpt(name)
    case Some(p) => Success(p)
    case None => Failure(NoSuchElement)
  }

  /** Two names that are equal ignoring case resolve to the same provider, or both to none. */
  lemma FindByNameOptIgnoresCase(a: string, b: string)
    requires EqualsIgnoreCase(a, b)
    ensures FindByNameOpt(a) == FindByNameOpt(b)
  {
    EqualsIgnoreCaseIffSameUpperCase(a, b);
    forall p: Provider
      ensures EqualsIgnoreCase(Name(p), a) <==> EqualsIgnoreCase(Name(p), b)
    {
      EqualsIgnoreCaseIffSameUpperCase(Name(p), a);
      EqualsIgnoreCaseIffSameUpperCase(Name(p), b);
    }
    assert Values[1..] == [APPLE];
  }

  /** A resolved provider's name is the upper-case form of the name it was looked up by. */
  lemma ResolvedNameIsUpperCase(name: string)
    requires FindByNameOpt(name).Some?
    ensures Name(FindByNameOpt(name).value) == UpperCase(name)
  {
    var p := FindByNameOpt(name).value;
    EqualsIgnoreCaseIffSameUpperCase(Name(p), name);
    UpperCaseOfNoLowerCase(Name(p));
  }

  /** Every provider is found by its own name, in upper case and in lower case. */
  lemma FindByOwnName(p: Provider)
    ensures FindByNameOpt(Name(p)) == Some(p)
    ensures FindByNameOpt(LowerCase(Name(p))) == Some(p)
  {
    var lower := LowerCase(Name(p));
    forall i | 0 <= i < |lower| ensures CharEqualsIgnoreCase(Name(p)[i], lower[i]) {
      CharEqualsIgnoreCaseIffSameUpper(Name(p)[i], lower[i]);
    }
    FindByNameOptIgnoresCase(Name(p), lower);
    assert Values[1..] == [APPLE];
    assert !EqualsIgnoreCase(Name(GOOGLE), Name(APPLE)) by {
      assert |Name(GOOGLE)| != |Name(APPLE)|;
    }
  }

  /** The lower-case names of the test resolve; an unknown name fails the strict lookup. */
  lemma LookupExamples()
    ensures FindByNameOpt("google") == Some(GOOGLE)
    ensures FindByNameOpt("apple") == Some(APPLE)
    ensures FindByNameOpt("GOOGLE") == Some(GOOGLE)
    ensures FindByName("invalidName") == Failure(NoSuchElement)
  {
    FindByOwnName(GOOGLE);
    FindByOwnName(APPLE);
    assert LowerCase(Name(GOOGLE)) == "google";
    assert LowerCase(Name(APPLE)) == "apple";
  }
}
