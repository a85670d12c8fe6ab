/**
 * The SOQL safety rules of `QueryValidator.validate_query`: a chain of checks
 * on the upper-cased, stripped query (and, for the last one, on the query as
 * given), each returning the first failure it finds.
 */
module Soql {
  import opened Wrappers
  import opened Text

  /** `FORBIDDEN_OPERATIONS`, in the order they are checked. */
  const ForbiddenOperations: seq<string> :=
    ["INSERT", "UPDATE", "DELETE", "UPSERT", "MERGE", "UNDELETE", "CREATE", "MODIFY", "TRUNCATE"]

  const SelectOnly := "Only SELECT queries are allowed. DML operations are not permitted."
  const CountNeedsField := "COUNT queries must specify a field to count (e.g., COUNT(Id))"
  const CountNeedsWhere := "COUNT queries must include a WHERE clause for performance reasons"
  const MultipleStatements := "Multiple SQL statements are not allowed"

  function ForbiddenMessage(operation: string): string {
    operation + " operations are not permitted. Only SELECT queries are allowed."
  }

  /** The `(is_valid, error_message)` pair. */
  datatype Verdict = Verdict(isValid: bool, error: Option<string>)

  /** The index of the first non-whitespace character at or after `i`. */
  function SkipSpaces(s: string, i: nat): (j: nat)
    requires i <= |s|
    ensures i <= j <= |s|
    ensures forall k :: i <= k < j ==> IsSpace(s[k])
    ensures j == |s| || !IsSpace(s[j])
    decreases |s| - i
  {
    if i < |s| && IsSpace(s[i]) then SkipSpaces(s, i + 1) else i
  }

  /**
   * `\bWORD\b` matches at `i`, for a word made of word characters: the word
   * occurs there and neither neighbour is a word character.
   */
  predicate WholeWordAt(s: string, word: string, i: nat) {
    OccursAt(s, word, i)
    && (i == 0 || !IsWordChar(s[i - 1]))
    && (i + |word| == |s| || !IsWordChar(s[i + |word|]))
  }

  predicate MentionsWord(s: string, word: string) {
    exists i: nat :: i <= |s| && WholeWordAt(s, word, i)
  }

  /** `re.search(r'\bWORD\b', s)` from position `from`: the leftmost match. */
  function FindWord(s: string, word: string, from: nat): (r: Option<nat>)
    ensures r.Some? ==> from <= r.value <= |s| && WholeWordAt(s, word, r.value)
    ensures r.None? ==> forall j :: from <= j <= |s| ==> !WholeWordAt(s, word, j)
    decreases |s| + 1 - from
  {
    if from > |s| then None
    else if WholeWordAt(s, word, from) then Some(from)
    else FindWord(s, word, from + 1)
  }

  /** The for-loop over the forbidden operations: the index of the first one mentioned. */
  function FirstForbidden(s: string, from: nat): (r: Option<nat>)
    requires from <= |ForbiddenOperations|
    ensures r.Some? ==> from <= r.value < |ForbiddenOperations|
    ensures r.Some? ==> MentionsWord(s, ForbiddenOperations[r.value])
    ensures r.Some? ==> forall k :: from <= k < r.value ==> !MentionsWord(s, ForbiddenOperations[k])
    ensures r.None? ==> forall k :: from <= k < |ForbiddenOperations| ==> !MentionsWord(s, ForbiddenOperations[k])
    decreases |ForbiddenOperations| - from
  {
    if from == |ForbiddenOperations| then None
    else
      if FindWord(s, ForbiddenOperations[from], 0).Some? then Some(from)
      else FirstForbidden(s, from + 1)
  }

  /**
   * `COUNT\s*\(([^)]*)\)` matches at `i`: `COUNT`, optional whitespace, `(`,
   * and a `)` somewhere after it.
   */
  predicate CountAt(s: string, i: nat) {
    OccursAt(s, "COUNT", i)
    && var j := SkipSpaces(s, i + 5);
       j < |s| && s[j] == '(' && ')' in s[j + 1..]
  }

  /** `re.search(r'COUNT\s*\(([^)]*)\)', s)` from position `from`: the leftmost match. */
  function FindCount(s: string, from: nat): (r: Option<nat>)
    ensures r.Some? ==> from <= r.value <= |s| && CountAt(s, r.value)
    ensures r.Some? ==> forall j :: from <= j < r.value ==> !CountAt(s, j)
    ensures r.None? ==> forall j :: from <= j <= |s| ==> !CountAt(s, j)
    decreases |s| + 1 - from
  {
    if from > |s| then None
    else if CountAt(s, from) then Some(from)
    else FindCount(s, from + 1)
  }

  /** The group of a match at `i`: what lies between the `(` and the first `)` after it. */
  function CountArgument(s: string, i: nat): (arg: string)
    requires CountAt(s, i)
    ensures ')' !in arg
  {
    var j := SkipSpaces(s, i + 5);
    SplitFirst(s[j + 1..], ')').0
  }

  /** `;\s*\w+` matches at `i`: a semicolon, optional whitespace, then a word character. */
  predicate StatementBreakAt(s: string, i: nat) {
    i < |s| && s[i] == ';' && var j := SkipSpaces(s, i + 1); j < |s| && IsWordChar(s[j])
  }

  /** `re.search(r';\s*\w+', s)` from position `from` finds a match. */
  function FindBreak(s: string, from: nat): (r: bool)
    ensures r <==> exists j :: from <= j < |s| && StatementBreakAt(s, j)
    decreases |s| - from
  {
    if from >= |s| then false
    else StatementBreakAt(s, from) || FindBreak(s, from + 1)
  }

  function Reject(message: string): Verdict {
    Verdict(false, Some(message))
  }

  /** `validate_query`. */
  function ValidateQuery(soql: string): (r: Verdict)
    ensures r.isValid <==> r.error.None?
  {
    var upper := Strip(Upper(soql));
    if !("SELECT" <= upper) then Reject(SelectOnly)
    else match FirstForbidden(upper, 0)
      case Some(k) => Reject(ForbiddenMessage(ForbiddenOperations[k]))
      case None =>
        match FindCount(upper, 0)
        case Some(i) =>
          if Strip(CountArgument(upper, i)) == "" then Reject(CountNeedsField)
          else if !Contains(upper, "WHERE") then Reject(CountNeedsWhere)
          else if FindBreak(soql, 0) then Reject(MultipleStatements)
          else Verdict(true, None)
        case None =>
          if FindBreak(soql, 0) then Reject(MultipleStatements)
          else Verdict(true, None)
  }

  // The rules, stated on their own and proved of ValidateQuery.

  predicate IsSelect(soql: string) {
    "SELECT" <= Strip(Upper(soql))
  }

  predicate MentionsForbidden(soql: string) {
    exists k :: 0 <= k < |ForbiddenOperations| && MentionsWord(Strip(Upper(soql)), ForbiddenOperations[k])
  }

  /** The leftmost match of the COUNT pattern is at `i`. */
  predicate FirstCountAt(upper: string, i: nat) {
    i <= |upper| && CountAt(upper, i) && forall j :: 0 <= j < i ==> !CountAt(upper, j)
  }

  /** The leftmost COUNT match has a blank argument, or there is one and no `WHERE`. */
  ghost predicate BadCount(soql: string) {
    var upper := Strip(Upper(soql));
    exists i: nat :: FirstCountAt(upper, i)
      && (Strip(CountArgument(upper, i)) == "" || !Contains(upper, "WHERE"))
  }

  predicate HasStatementBreak(soql: string) {
    exists i :: 0 <= i < |soql| && StatementBreakAt(soql, i)
  }

  lemma ForbiddenSearch(soql: string)
    ensures FirstForbidden(Strip(Upper(soql)), 0).Some? <==> MentionsForbidden(soql)
  {
  }

  /** FindCount reports the leftmost COUNT match, or that there is none. */
  lemma CountSearch(upper: string)
    ensures FindCount(upper, 0).Some? ==> FirstCountAt(upper, FindCount(upper, 0).value)
    ensures FindCount(upper, 0).None? ==> forall i: nat :: !FirstCountAt(upper, i)
  {
  }

  /** A query is accepted exactly when it passes every rule. */
  lemma ValidIffAllRulesPass(soql: string)
    ensures ValidateQuery(soql).isValid
        <==> IsSelect(soql) && !MentionsForbidden(soql) && !BadCount(soql) && !HasStatementBreak(soql)
  {
    if !IsSelect(soql) {
      SelectCheckedFirst(soql);
    } else if MentionsForbidden(soql) {
      ForbiddenRejected(soql);
    } else if BadCount(soql) {
      BadCountRejected(soql);
    } else {
      RulesPassedValid(soql);
    }
  }

  lemma ForbiddenRejected(soql: string)
    requires IsSelect(soql) && MentionsForbidden(soql)
    ensures !ValidateQuery(soql).isValid
  {
    ForbiddenSearch(soql);
  }

  /** Past the first three rules, only the statement-break rule is left. */
  lemma RulesPassedValid(soql: string)
    requires IsSelect(soql) && !MentionsForbidden(soql) && !BadCount(soql)
    ensures ValidateQuery(soql).isValid <==> !HasStatementBreak(soql)
  {
    ForbiddenSearch(soql);
    CountRulesPass(soql);
    assert FindBreak(soql, 0) <==> HasStatementBreak(soql);
  }

  /** Past the first two rules, a bad COUNT is refused. */
  lemma BadCountRejected(soql: string)
    requires IsSelect(soql) && !MentionsForbidden(soql) && BadCount(soql)
    ensures !ValidateQuery(soql).isValid
  {
    var upper := Strip(Upper(soql));
    ForbiddenSearch(soql);
    CountSearch(upper);
    var i :| FirstCountAt(upper, i) && (Strip(CountArgument(upper, i)) == "" || !Contains(upper, "WHERE"));
    FirstCountUnique(upper, FindCount(upper, 0).value, i);
  }

  lemma FirstCountUnique(upper: string, i: nat, j: nat)
    requires FirstCountAt(upper, i) && FirstCountAt(upper, j)
    ensures i == j
  {
  }

  /** The SELECT check runs first: anything else is refused with the DML message. */
  lemma SelectCheckedFirst(soql: string)
    requires !IsSelect(soql)
    ensures ValidateQuery(soql) == Verdict(false, Some(SelectOnly))
  {
  }

  /** A forbidden word mentioned as a whole word is refused, naming the first in list order. */
  lemma ForbiddenNamed(soql: string, k: nat)
    requires IsSelect(soql)
    requires k < |ForbiddenOperations| && MentionsWord(Strip(Upper(soql)), ForbiddenOperations[k])
    requires forall j :: 0 <= j < k ==> !MentionsWord(Strip(Upper(soql)), ForbiddenOperations[j])
    ensures ValidateQuery(soql) == Verdict(false, Some(ForbiddenMessage(ForbiddenOperations[k])))
  {
    FirstForbiddenIs(Strip(Upper(soql)), k);
  }

  lemma FirstForbiddenIs(s: string, k: nat)
    requires k < |ForbiddenOperations| && MentionsWord(s, ForbiddenOperations[k])
    requires forall j :: 0 <= j < k ==> !MentionsWord(s, ForbiddenOperations[j])
    ensures FirstForbidden(s, 0) == Some(k)
  {
  }

  /** Past the first two rules, a blank argument to the leftmost COUNT is refused. */
  lemma CountFieldRequired(soql: string, i: nat)
    requires IsSelect(soql) && !MentionsForbidden(soql)
    requires FirstCountAt(Strip(Upper(soql)), i) && Strip(CountArgument(Strip(Upper(soql)), i)) == ""
    ensures ValidateQuery(soql) == Verdict(false, Some(CountNeedsField))
  {
    var upper := Strip(Upper(soql));
    ForbiddenSearch(soql);
    CountSearch(upper);
    FirstCountUnique(upper, FindCount(upper, 0).value, i);
  }

  /** Past the first two rules, a COUNT with an argument but no `WHERE` anywhere is refused. */
  lemma CountWhereRequired(soql: string, i: nat)
    requires IsSelect(soql) && !MentionsForbidden(soql)
    requires FirstCountAt(Strip(Upper(soql)), i) && Strip(CountArgument(Strip(Upper(soql)), i)) != ""
    requires !Contains(Strip(Upper(soql)), "WHERE")
    ensures ValidateQuery(soql) == Verdict(false, Some(CountNeedsWhere))
  {
    var upper := Strip(Upper(soql));
    ForbiddenSearch(soql);
    CountSearch(upper);
    FirstCountUnique(upper, FindCount(upper, 0).value, i);
  }

  /** A query that passes the other rules but chains a second statement is refused. */
  lemma StatementsRejected(soql: string)
    requires IsSelect(soql) && !MentionsForbidden(soql) && !BadCount(soql)
    requires HasStatementBreak(soql)
    ensures ValidateQuery(soql) == Verdict(false, Some(MultipleStatements))
  {
    var upper := Strip(Upper(soql));
    ForbiddenSearch(soql);
    CountRulesPass(soql);
    assert FindBreak(soql, 0);
  }

  /** Without a bad COUNT, the leftmost COUNT match (if any) has an argument and a `WHERE` goes with it. */
  lemma CountRulesPass(soql: string)
    requires !BadCount(soql)
    ensures var upper := Strip(Upper(soql));
      FindCount(upper, 0).Some? ==>
        Strip(CountArgument(upper, FindCount(upper, 0).value)) != "" && Contains(upper, "WHERE")
  {
    var upper := Strip(Upper(soql));
    CountSearch(upper);
  }

  /** An operation name that runs on into a longer identifier (CREATE in CREATEDDATE) is not a match there. */
  lemma EmbeddedWordIgnored(s: string, word: string, i: nat)
    requires OccursAt(s, word, i) && i + |word| < |s| && IsWordChar(s[i + |word|])
    ensures !WholeWordAt(s, word, i)
  {
  }

  /** Past the end of `t`, skipping whitespace in `t + u` stops where it stops in `t`, or at `u`'s first character. */
  lemma {:induction false} SkipSpacesExtended(t: string, u: string, i: nat)
    requires i <= |t| && |u| > 0 && !IsSpace(u[0])
    ensures SkipSpaces(t + u, i) == SkipSpaces(t, i)
    decreases |t| - i
  {
    if i < |t| && IsSpace(t[i]) {
      SkipSpacesExtended(t, u, i + 1);
    }
  }

  /** A lone `;` (and whitespace) at the end adds no statement break. */
  lemma TrailingSemicolonAllowed(t: string, ws: string)
    requires forall k :: 0 <= k < |ws| ==> IsSpace(ws[k])
    ensures HasStatementBreak(t + ";" + ws) <==> HasStatementBreak(t)
  {
    var s := t + ";" + ws;
    assert s == t + (";" + ws);
    forall i | 0 <= i < |t| ensures StatementBreakAt(s, i) <==> StatementBreakAt(t, i) {
      SkipSpacesExtended(t, ";" + ws, i + 1);
    }
    forall i | |t| <= i < |s| ensures !StatementBreakAt(s, i) {
      if i > |t| {
        assert s[i] == ws[i - |t| - 1];
      }
    }
    if HasStatementBreak(s) {
      var i :| 0 <= i < |s| && StatementBreakAt(s, i);
      assert i < |t|;
    }
  }
}
