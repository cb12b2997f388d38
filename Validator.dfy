/** CreateSubscriptionValidator: four independent field rules whose failures accumulate. */
module Validator {
  import opened Wrappers
  import opened Text
  import opened Entity
  import opened Dto
  import opened Validation

  datatype Rule = UserIdRule | NameRule | ProviderRule | ExpirationDateRule

  /** The rules in the order the validator checks them. */
  const Rules: seq<Rule> := [UserIdRule, NameRule, ProviderRule, ExpirationDateRule]

  /** The fixed error each rule reports. */
  function RuleError(rule: Rule): (e: Error)
    ensures 100 <= e.code <= 103
    ensures |e.message| > 11 && e.message[|e.message| - 11..] == " is invalid"
  {
    match rule
    case UserIdRule => Of(100, "userId is invalid")
    case NameRule => Of(101, "name is invalid")
    case ProviderRule => Of(102, "provider is invalid")
    case ExpirationDateRule => Of(103, "expirationDate is invalid")
  }

  /** Whether dto breaks rule. */
  predicate Fails(rule: Rule, dto: CreateSubscriptionDto)
    ensures rule == NameRule && dto.name.Some? && |dto.name.value| == 0 ==> Fails(rule, dto)
    ensures rule == NameRule && dto.name.Some? && (forall i :: 0 <= i < |dto.name.value| ==> dto.name.value[i] == ' ')
      ==> Fails(rule, dto)
    ensures rule == ProviderRule ==>
      (Fails(rule, dto) <==> dto.provider.None? || forall p :: !EqualsIgnoreCase(Name(p), dto.provider.value))
  {
    match rule
    case UserIdRule => dto.userId.None?
    case NameRule => dto.name.None? || IsBlank(dto.name.value)
    case ProviderRule => dto.provider.None? || FindByNameOpt(dto.provider.value).None?
    case ExpirationDateRule => dto.expirationDate.None?
  }

  /** A request every rule accepts, stated field by field. */
  predicate IsValid(dto: CreateSubscriptionDto)
  {
    && dto.userId.Some?
    && dto.name.Some? && !IsBlank(dto.name.value)
    && dto.provider.Some? && FindByNameOpt(dto.provider.value).Some?
    && dto.expirationDate.Some?
  }

  /** What checking one rule adds to the result: its error if it fails, nothing otherwise. */
  function Report(rule: Rule, dto: CreateSubscriptionDto): seq<Error>
  {
    if Fails(rule, dto) then [RuleError(rule)] else []
  }

  /** The errors of the failing rules among rules, in order. */
  function Collect(rules: seq<Rule>, dto: CreateSubscriptionDto): seq<Error>
  {
    if rules == [] then [] else Report(rules[0], dto) + Collect(rules[1..], dto)
  }

  /** What validate reports for dto. */
  function Errors(dto: CreateSubscriptionDto): seq<Error>
  {
    Collect(Rules, dto)
  }

  /** Every rule is checked. */
  lemma AllRulesChecked(rule: Rule)
    ensures rule in Rules
  {
    match rule
    case UserIdRule => assert Rules[0] == rule;
    case NameRule => assert Rules[1] == rule;
    case ProviderRule => assert Rules[2] == rule;
    case ExpirationDateRule => assert Rules[3] == rule;
  }

  /** The four rule checks, one after the other. */
  lemma ErrorsInSequence(dto: CreateSubscriptionDto)
    ensures Errors(dto) == Report(UserIdRule, dto) + Report(NameRule, dto)
                         + Report(ProviderRule, dto) + Report(ExpirationDateRule, dto)
  {
    var r1, r2, r3 := Rules[1..], Rules[1..][1..], Rules[1..][1..][1..];
    assert r1 == [NameRule, ProviderRule, ExpirationDateRule];
    assert r2 == [ProviderRule, ExpirationDateRule];
    assert r3 == [ExpirationDateRule];
    assert Collect(r3, dto) == Report(ExpirationDateRule, dto) + Collect([], dto);
    assert Collect(r2, dto) == Report(ProviderRule, dto) + Collect(r3, dto);
    assert Collect(r1, dto) == Report(NameRule, dto) + Collect(r2, dto);
  }

  predicate CodesIncrease(es: seq<Error>)
  {
    forall i, j :: 0 <= i < j < |es| ==> es[i].code < es[j].code
  }

  predicate RuleCodesIncrease(rules: seq<Rule>)
  {
    forall i, j :: 0 <= i < j < |rules| ==> RuleError(rules[i]).code < RuleError(rules[j]).code
  }

  /** An error is collected exactly when it is the error of some failing rule. */
  lemma {:induction false} CollectContains(rules: seq<Rule>, dto: CreateSubscriptionDto, e: Error)
    ensures e in Collect(rules, dto) <==> exists rule :: rule in rules && Fails(rule, dto) && RuleError(rule) == e
  {
    if rules != [] {
      CollectContains(rules[1..], dto, e);
      assert forall rule :: rule in rules <==> rule == rules[0] || rule in rules[1..];
    }
  }

  /** Rules checked in increasing code order report errors in increasing code order. */
  lemma {:induction false} CollectCodesIncrease(rules: seq<Rule>, dto: CreateSubscriptionDto)
    requires RuleCodesIncrease(rules)
    ensures CodesIncrease(Collect(rules, dto))
  {
    if rules != [] {
      var tail := Collect(rules[1..], dto);
      CollectCodesIncrease(rules[1..], dto);
      forall j | 0 <= j < |tail| ensures RuleError(rules[0]).code < tail[j].code {
        CollectContains(rules[1..], dto, tail[j]);
        var rule :| rule in rules[1..] && Fails(rule, dto) && RuleError(rule) == tail[j];
        var k :| 0 <= k < |rules[1..]| && rules[1..][k] == rule;
        assert rules[k + 1] == rule;
      }
    }
  }

  /** validate reports one error per failing rule, with that rule's fixed code and message,
      in rule order and without repeats; it reports nothing else. */
  lemma ErrorsPerRule(dto: CreateSubscriptionDto)
    ensures forall rule :: RuleError(rule) in Errors(dto) <==> Fails(rule, dto)
    ensures forall e :: e in Errors(dto) ==> exists rule :: Fails(rule, dto) && e == RuleError(rule)
    ensures CodesIncrease(Errors(dto))
  {
    forall e ensures e in Errors(dto) <==> exists rule :: rule in Rules && Fails(rule, dto) && RuleError(rule) == e {
      CollectContains(Rules, dto, e);
    }
    forall rule ensures rule in Rules {
      AllRulesChecked(rule);
    }
    CollectCodesIncrease(Rules, dto);
  }

  /** validate reports no error exactly when the request is valid. */
  lemma NoErrorsIffValid(dto: CreateSubscriptionDto)
    ensures Errors(dto) == [] <==> IsValid(dto)
  {
    ErrorsPerRule(dto);
    if !IsValid(dto) {
      var rule :| Fails(rule, dto);
      assert RuleError(rule) in Errors(dto);
    }
    if Errors(dto) != [] {
      assert Errors(dto)[0] in Errors(dto);
    }
  }

  /** When only one rule fails, validate reports exactly that rule's error. */
  lemma SingleFailure(dto: CreateSubscriptionDto, rule: Rule)
    requires Fails(rule, dto)
    requires forall other :: other != rule ==> !Fails(other, dto)
    ensures Errors(dto) == [RuleError(rule)]
  {
    ErrorsInSequence(dto);
  }

  /** A request carrying only an expiration date fails exactly the first three rules, in order. */
  lemma OnlyExpirationDatePresent(date: Instant)
    ensures Errors(CreateSubscriptionDto(None, None, None, Some(date)))
         == [Of(100, "userId is invalid"), Of(101, "name is invalid"), Of(102, "provider is invalid")]
  {
    ErrorsInSequence(CreateSubscriptionDto(None, None, None, Some(date)));
  }

  /** CreateSubscriptionValidator.validate: a fresh result holding one error per failing rule. */
  method Validate(dto: CreateSubscriptionDto) returns (result: ValidationResult)
    ensures fresh(result)
    ensures result.errors == Errors(dto)
  {
    result := new ValidationResult();
    if Fails(UserIdRule, dto) {
      result.Add(RuleError(UserIdRule));
    }
    assert result.errors == Report(UserIdRule, dto);
    if Fails(NameRule, dto) {
      result.Add(RuleError(NameRule));
    }
    assert result.errors == Report(UserIdRule, dto) + Report(NameRule, dto);
    if Fails(ProviderRule, dto) {
      result.Add(RuleError(ProviderRule));
    }
    assert result.errors == Report(UserIdRule, dto) + Report(NameRule, dto) + Report(ProviderRule, dto);
    if Fails(ExpirationDateRule, dto) {
      result.Add(RuleError(ExpirationDateRule));
    }
    ErrorsInSequence(dto);
  }
}
