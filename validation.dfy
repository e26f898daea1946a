/** `validateTicket` in server.js: the field checks run on a ticket submission before it is
    created. Every rule is checked; all violations are reported, in a fixed order. */
module Validation {
  import opened Wrappers
  import opened Text

  /** The request body of `POST /api/tickets`. A field that is absent or `null` is None. */
  datatype Submission = Submission(
    name: Option<string>,
    phone: Option<string>,
    email: Option<string>,
    deviceName: Option<string>,
    description: Option<string>)

  /** One failed rule; `Message()` is the string the server puts in `errors`. */
  datatype Violation = NameRequired | PhoneRequired | EmailRequired | InvalidEmail | DeviceRequired {

    function Message(): string {
      match this
      case NameRequired => "Name is required"
      case PhoneRequired => "Phone number is required"
      case EmailRequired => "Email is required"
      case InvalidEmail => "Invalid email format"
      case DeviceRequired => "Device name is required"
    }

    /** Position of the rule in the order the source checks them. */
    function Rank(): nat {
      match this
      case NameRequired => 0
      case PhoneRequired => 1
      case EmailRequired => 2
      case InvalidEmail => 3
      case DeviceRequired => 4
    }
  }

  /** `!field || field.trim().length === 0` */
  predicate Missing(field: Option<string>) {
    field.None? || IsBlank(field.value)
  }

  /** The e-mail is present but the untrimmed text fails the pattern. */
  predicate EmailMalformed(sub: Submission) {
    !Missing(sub.email) && !IsEmail(sub.email.value)
  }

  /** A submission every rule accepts. */
  predicate Acceptable(sub: Submission) {
    && !Missing(sub.name)
    && !Missing(sub.phone)
    && !Missing(sub.email)
    && !EmailMalformed(sub)
    && !Missing(sub.deviceName)
  }

  /** Strictly increasing rule positions: rule order, no repetition. */
  predicate InRuleOrder(errors: seq<Violation>) {
    forall a, b :: 0 <= a < b < |errors| ==> errors[a].Rank() < errors[b].Rank()
  }

  /** Which rules `sub` fails. */
  datatype RuleResults = RuleResults(
    nameMissing: bool,
    phoneMissing: bool,
    emailMissing: bool,
    emailMalformed: bool,
    deviceMissing: bool)

  function Inspect(sub: Submission): (r: RuleResults)
    ensures r.emailMissing ==> !r.emailMalformed
  {
    RuleResults(Missing(sub.name), Missing(sub.phone), Missing(sub.email), EmailMalformed(sub),
                Missing(sub.deviceName))
  }

  /** `errors` lists exactly the failed rules of `r`, in rule order, each once. */
  ghost predicate Lists(errors: seq<Violation>, r: RuleResults) {
    && (NameRequired in errors <==> r.nameMissing)
    && (PhoneRequired in errors <==> r.phoneMissing)
    && (EmailRequired in errors <==> r.emailMissing)
    && (InvalidEmail in errors <==> r.emailMalformed)
    && (DeviceRequired in errors <==> r.deviceMissing)
    && InRuleOrder(errors)
  }

  /** `errors` is exactly the list of violations of `sub`. */
  ghost predicate ReportsViolations(errors: seq<Violation>, sub: Submission) {
    Lists(errors, Inspect(sub))
  }

  /** The rules in the order the source checks them. */
  const RuleOrder: seq<Violation> := [NameRequired, PhoneRequired, EmailRequired, InvalidEmail, DeviceRequired]

  /** Whether the check for `v` pushes its message; the format check is the `else` of the
      e-mail presence check. */
  predicate Fails(r: RuleResults, v: Violation) {
    match v
    case NameRequired => r.nameMissing
    case PhoneRequired => r.phoneMissing
    case EmailRequired => r.emailMissing
    case InvalidEmail => !r.emailMissing && r.emailMalformed
    case DeviceRequired => r.deviceMissing
  }

  /** The rules of `vs` that `r` fails, in the order of `vs`. */
  function Failed(r: RuleResults, vs: seq<Violation>): (e: seq<Violation>)
    ensures |e| <= |vs|
  {
    if vs == [] then []
    else Failed(r, vs[..|vs| - 1]) + (if Fails(r, vs[|vs| - 1]) then [vs[|vs| - 1]] else [])
  }

  /** A rule is listed exactly when it is among those checked and it fails. */
  lemma {:induction false} FailedMembers(r: RuleResults, vs: seq<Violation>)
    ensures forall v :: v in Failed(r, vs) <==> v in vs && Fails(r, v)
  {
    if vs != [] {
      var init := vs[..|vs| - 1];
      FailedMembers(r, init);
      assert vs == init + [vs[|vs| - 1]];
    }
  }

  /** Checking one more rule appends its message when it fails. */
  lemma FailedStep(r: RuleResults, vs: seq<Violation>, v: Violation)
    ensures Failed(r, vs + [v]) == Failed(r, vs) + (if Fails(r, v) then [v] else [])
  {
    assert (vs + [v])[..|vs|] == vs;
  }

  /** Filtering keeps the rule order. */
  lemma {:induction false} FailedInRuleOrder(r: RuleResults, vs: seq<Violation>)
    requires InRuleOrder(vs)
    ensures InRuleOrder(Failed(r, vs))
  {
    if vs != [] {
      var init := vs[..|vs| - 1];
      var last := vs[|vs| - 1];
      assert InRuleOrder(init);
      FailedInRuleOrder(r, init);
      FailedMembers(r, init);
      var e := Failed(r, init);
      forall x | x in e ensures x.Rank() < last.Rank() {
        assert x in init;
        var i :| 0 <= i < |init| && init[i] == x;
        assert vs[i] == x;
      }
      if Fails(r, last) {
        var e' := e + [last];
        forall a, b | 0 <= a < b < |e'| ensures e'[a].Rank() < e'[b].Rank() {
          if b == |e| {
            assert e[a] in e;
          }
        }
      }
    }
  }

  /** The failed rules, listed in rule order, are exactly what `Lists` describes. */
  lemma FailedLists(r: RuleResults)
    requires r.emailMissing ==> !r.emailMalformed
    ensures Lists(Failed(r, RuleOrder), r)
  {
    assert InRuleOrder(RuleOrder);
    FailedInRuleOrder(r, RuleOrder);
    FailedMembers(r, RuleOrder);
    assert NameRequired in RuleOrder && PhoneRequired in RuleOrder && EmailRequired in RuleOrder;
    assert InvalidEmail in RuleOrder && DeviceRequired in RuleOrder;
  }

  /** The messages `validateTicket` pushes, written as one expression over which rules fail. */
  function Collect(r: RuleResults): seq<Violation> {
    (if r.nameMissing then [NameRequired] else [])
    + (if r.phoneMissing then [PhoneRequired] else [])
    + (if r.emailMissing then [EmailRequired] else if r.emailMalformed then [InvalidEmail] else [])
    + (if r.deviceMissing then [DeviceRequired] else [])
  }

  /** The pushes agree with filtering the rule order by failure. */
  lemma CollectFailed(r: RuleResults)
    ensures Collect(r) == Failed(r, RuleOrder)
  {
    var checked: seq<Violation> := [];
    FailedStep(r, checked, NameRequired);
    checked := checked + [NameRequired];
    FailedStep(r, checked, PhoneRequired);
    checked := checked + [PhoneRequired];
    FailedStep(r, checked, EmailRequired);
    checked := checked + [EmailRequired];
    FailedStep(r, checked, InvalidEmail);
    checked := checked + [InvalidEmail];
    FailedStep(r, checked, DeviceRequired);
    checked := checked + [DeviceRequired];
    assert checked == RuleOrder;
  }

  /** The pushes of `validateTicket`, one rule at a time, given which rules fail. */
  method PushViolations(r: RuleResults) returns (errors: seq<Violation>)
    ensures errors == Collect(r)
  {
    errors := [];
    if r.nameMissing {
      errors := errors + [NameRequired];
    }
    if r.phoneMissing {
      errors := errors + [PhoneRequired];
    }
    if r.emailMissing {
      errors := errors + [EmailRequired];
    } else if r.emailMalformed {
      errors := errors + [InvalidEmail];
    }
    if r.deviceMissing {
      errors := errors + [DeviceRequired];
    }
  }

  /** What `validateTicket` returns for `sub`: its violations, in rule order; none exactly
      when the submission is acceptable, and never both e-mail messages. */
  function Violations(sub: Submission): (errors: seq<Violation>)
    ensures ReportsViolations(errors, sub)
    ensures errors == [] <==> Acceptable(sub)
    ensures !(EmailRequired in errors && InvalidEmail in errors)
  {
    var r := Inspect(sub);
    CollectFailed(r);
    FailedLists(r);
    ListsEmpty(Failed(r, RuleOrder), r);
    AcceptableInspect(sub);
    Collect(r)
  }

  /** `validateTicket(ticket)`, pushing one message per failed rule. */
  method ValidateTicket(ticket: Submission) returns (errors: seq<Violation>)
    ensures errors == Violations(ticket)
  {
    var r := Inspect(ticket);
    errors := PushViolations(r);
  }

  /** No rule is reported exactly when no rule fails. */
  lemma ListsEmpty(errors: seq<Violation>, r: RuleResults)
    requires Lists(errors, r)
    ensures errors == [] <==> r == RuleResults(false, false, false, false, false)
  {
    if errors != [] {
      assert errors[0] in errors;
      match errors[0]
      case NameRequired =>
      case PhoneRequired =>
      case EmailRequired =>
      case InvalidEmail =>
      case DeviceRequired =>
    }
  }

  /** A submission is acceptable exactly when it fails no rule. */
  lemma AcceptableInspect(sub: Submission)
    ensures Acceptable(sub) <==> Inspect(sub) == RuleResults(false, false, false, false, false)
  {
  }

  /** Two lists describing the same failed rules have the same members. */
  lemma ListsSameMembers(e1: seq<Violation>, e2: seq<Violation>, r: RuleResults)
    requires Lists(e1, r) && Lists(e2, r)
    ensures forall v :: v in e1 <==> v in e2
  {
    forall v ensures v in e1 <==> v in e2 {
      match v
      case NameRequired =>
      case PhoneRequired =>
      case EmailRequired =>
      case InvalidEmail =>
      case DeviceRequired =>
    }
  }

  /** Two lists that both report the violations of one submission are the same list: the
      contract of ValidateTicket leaves it no freedom. */
  lemma {:induction false} ReportsViolationsUnique(e1: seq<Violation>, e2: seq<Violation>, sub: Submission)
    requires ReportsViolations(e1, sub) && ReportsViolations(e2, sub)
    ensures e1 == e2
  {
    ListsSameMembers(e1, e2, Inspect(sub));
    RankedListsEqual(e1, e2);
  }

  /** Rules are determined by their position, and distinct rules report distinct messages. */
  lemma RankAndMessageInjective(v: Violation, w: Violation)
    ensures v.Rank() == w.Rank() ==> v == w
    ensures v.Message() == w.Message() ==> v == w
  {
  }

  lemma HeadIn(e: seq<Violation>)
    requires e != []
    ensures e[0] in e
  {
  }

  /** In a rule-ordered list the head comes before every other member. */
  lemma HeadFirst(e: seq<Violation>, v: Violation)
    requires InRuleOrder(e) && v in e
    ensures e[0].Rank() <= v.Rank()
    ensures v != e[0] ==> v in e[1..] && e[0].Rank() < v.Rank()
  {
    var a :| 0 <= a < |e| && e[a] == v;
    if a > 0 {
      assert e[1..][a - 1] == v;
    }
  }

  /** The tail of a rule-ordered list is rule-ordered. */
  lemma TailInRuleOrder(e: seq<Violation>)
    requires e != [] && InRuleOrder(e)
    ensures InRuleOrder(e[1..])
  {
    assert forall a :: 0 <= a < |e| - 1 ==> e[1..][a] == e[a + 1];
  }

  /** Two rule-ordered lists with the same members are equal. */
  lemma {:induction false} RankedListsEqual(e1: seq<Violation>, e2: seq<Violation>)
    requires InRuleOrder(e1) && InRuleOrder(e2)
    requires forall v :: v in e1 <==> v in e2
    ensures e1 == e2
    decreases |e1|
  {
    if e1 != [] {
      assert e1[0] in e1;
      assert e2 != [];
      assert e2[0] in e2;
      HeadFirst(e1, e2[0]);
      HeadFirst(e2, e1[0]);
      RankAndMessageInjective(e1[0], e2[0]);
      forall v ensures v in e1[1..] <==> v in e2[1..] {
        if v in e1[1..] {
          assert v in e1;
          HeadFirst(e1, v);
          HeadFirst(e2, v);
        }
        if v in e2[1..] {
          assert v in e2;
          HeadFirst(e2, v);
          HeadFirst(e1, v);
        }
      }
      TailInRuleOrder(e1);
      TailInRuleOrder(e2);
      RankedListsEqual(e1[1..], e2[1..]);
      assert e1 == [e1[0]] + e1[1..];
      assert e2 == [e2[0]] + e2[1..];
    } else if e2 != [] {
      HeadIn(e2);
      assert false;
    }
  }

  /** A text with a visible first character is not blank. */
  lemma NotBlankWhenFirstVisible(s: string)
    requires s != [] && !IsWhitespace(s[0])
    ensures !IsBlank(s)
  {
    TrimEmptyIff(s);
  }

  /** A complete submission with a well-formed e-mail passes every rule. */
  lemma SampleAccepted()
    ensures Acceptable(Submission(Some("Ana"), Some("5551234567"), Some("a@b.co"), Some("Laptop"), None))
  {
    NotBlankWhenFirstVisible("Ana");
    NotBlankWhenFirstVisible("5551234567");
    NotBlankWhenFirstVisible("a@b.co");
    NotBlankWhenFirstVisible("Laptop");
    SampleEmailAccepted();
  }

  /** The same submission with `bad@` as e-mail fails only the format rule. */
  lemma SampleBadEmail()
    ensures Violations(Submission(Some("Ana"), Some("5551234567"), Some("bad@"), Some("Laptop"), None))
      == [InvalidEmail]
  {
    var sub := Submission(Some("Ana"), Some("5551234567"), Some("bad@"), Some("Laptop"), None);
    NotBlankWhenFirstVisible("Ana");
    NotBlankWhenFirstVisible("5551234567");
    NotBlankWhenFirstVisible("bad@");
    NotBlankWhenFirstVisible("Laptop");
    SampleEmailDanglingAt();
    assert Inspect(sub) == RuleResults(false, false, false, true, false);
  }

  /** An empty body fails every presence rule, in rule order, and not the format rule. */
  lemma SampleEmptyBody()
    ensures Violations(Submission(None, None, None, None, None))
      == [NameRequired, PhoneRequired, EmailRequired, DeviceRequired]
  {
    assert Inspect(Submission(None, None, None, None, None)) == RuleResults(true, true, true, false, true);
  }
}
