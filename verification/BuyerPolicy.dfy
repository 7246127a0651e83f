/** The policy check that decides what becomes of a new spend request. */
module BuyerPolicy {
  import opened Basics
  import opened Texts

  datatype Rules = Rules(
    maxAmount: Option<int>, autoApprovalThreshold: Option<int>, sellers: seq<string>, services: seq<string>,
    categories: seq<string>, emergencyStop: bool)

  datatype Verdict = Denied | NeedsApproval | AutoApproved

  /** Trim every entry and drop the blank ones. */
  function NormalizeList(values: seq<string>): (normalized: seq<string>)
  {
    if values == [] then []
    else
      var rest := NormalizeList(values[1..]);
      if Trim(values[0]) == "" then rest else [Trim(values[0])] + rest
  }

  function Normalize(rules: Rules): Rules {
    rules.(sellers := NormalizeList(rules.sellers), services := NormalizeList(rules.services),
           categories := NormalizeList(rules.categories))
  }

  function Evaluate(agentActive: bool, amount: int, seller: string, category: string, service: Option<string>, raw: Rules): Verdict {
    var rules := Normalize(raw);
    if rules.emergencyStop then Denied
    else if !agentActive then Denied
    else if rules.maxAmount.Some? && amount > rules.maxAmount.value then Denied
    else if |rules.sellers| > 0 && (seller == "" || seller !in rules.sellers) then Denied
    else if |rules.services| > 0 && (service.GetOr("") == "" || service.value !in rules.services) then Denied
    else if |rules.categories| > 0 && category !in rules.categories then Denied
    else if rules.autoApprovalThreshold.Some? && amount <= rules.autoApprovalThreshold.value then AutoApproved
    else NeedsApproval
  }

  /** Some entry of the list says something. */
  ghost predicate Restricts(values: seq<string>) {
    exists i :: 0 <= i < |values| && Trim(values[i]) != ""
  }

  /** Some entry of the list, trimmed, is exactly this text, which is not empty. */
  ghost predicate Lists(values: seq<string>, text: string) {
    text != "" && exists i :: 0 <= i < |values| && Trim(values[i]) == text
  }

  /** What the stored rules, normalized or not, let an agent ask for at all. */
  ghost predicate Admits(agentActive: bool, amount: int, seller: string, category: string, service: Option<string>, rules: Rules) {
    && agentActive && !rules.emergencyStop
    && (rules.maxAmount.Some? ==> amount <= rules.maxAmount.value)
    && (Restricts(rules.sellers) ==> Lists(rules.sellers, seller))
    && (Restricts(rules.services) ==> service.Some? && Lists(rules.services, service.value))
    && (Restricts(rules.categories) ==> Lists(rules.categories, category))
  }

  lemma {:induction false} NormalizedMembers(values: seq<string>, text: string)
    ensures text in NormalizeList(values) <==> Lists(values, text)
    ensures |NormalizeList(values)| > 0 <==> Restricts(values)
  {
    if values != [] {
      NormalizedMembers(values[1..], text);
      var rest := values[1..];
      assert Lists(values, text) <==> text != "" && (Trim(values[0]) == text || Lists(rest, text)) by {
        assert forall i :: 0 <= i < |rest| ==> rest[i] == values[i + 1];
      }
      assert Restricts(values) <==> Trim(values[0]) != "" || Restricts(rest) by {
        assert forall i :: 0 <= i < |rest| ==> rest[i] == values[i + 1];
      }
    }
  }

  /**
   * The verdict, exactly, on the rules as they are stored: denied unless the rules admit the ask,
   * and approved automatically when they do and the amount is within the threshold.
   */
  lemma VerdictIsExactly(agentActive: bool, amount: int, seller: string, category: string, service: Option<string>, rules: Rules)
    ensures var verdict := Evaluate(agentActive, amount, seller, category, service, rules);
            var admitted := Admits(agentActive, amount, seller, category, service, rules);
            && (verdict == Denied <==> !admitted)
            && (verdict == AutoApproved <==> admitted && rules.autoApprovalThreshold.Some? && amount <= rules.autoApprovalThreshold.value)
  {
    NormalizedMembers(rules.sellers, seller);
    NormalizedMembers(rules.services, service.GetOr(""));
    NormalizedMembers(rules.categories, category);
  }

  lemma {:induction false} NormalizeListTwice(values: seq<string>)
    ensures NormalizeList(NormalizeList(values)) == NormalizeList(values)
  {
    if values != [] {
      NormalizeListTwice(values[1..]);
      TrimTwice(values[0]);
      var rest := NormalizeList(values[1..]);
      if Trim(values[0]) != "" {
        assert ([Trim(values[0])] + rest)[1..] == rest;
      }
    }
  }

  /** It makes no difference whether rules were stored normalized or not. */
  lemma NormalizedRulesDecideAlike(agentActive: bool, amount: int, seller: string, category: string, service: Option<string>, rules: Rules)
    ensures Evaluate(agentActive, amount, seller, category, service, Normalize(rules)) ==
            Evaluate(agentActive, amount, seller, category, service, rules)
  {
    NormalizeListTwice(rules.sellers);
    NormalizeListTwice(rules.services);
    NormalizeListTwice(rules.categories);
  }

  function Favour(verdict: Verdict): nat {
    match verdict
    case Denied => 0
    case NeedsApproval => 1
    case AutoApproved => 2
  }

  /** Asking for less never fares worse. */
  lemma SmallerAmountsFareNoWorse(agentActive: bool, less: int, more: int, seller: string, category: string, service: Option<string>, rules: Rules)
    requires less <= more
    ensures Favour(Evaluate(agentActive, more, seller, category, service, rules)) <=
            Favour(Evaluate(agentActive, less, seller, category, service, rules))
  {
  }
}
