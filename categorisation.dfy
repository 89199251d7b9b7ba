/**
 * The categorisation worker (`categorise_transactions`) and its keyword
 * classifier (`determine_transaction_category`).
 *
 * The classifier is a first-match keyword chain over the lower-cased
 * description. The worker visits every row of one batch, marks it
 * `Processing`, classifies its description, and then marks it `Completed`
 * with the category, or `Failed` with the category left as it was when the
 * classifier raises. The classifier is a parameter so that the failure branch
 * can be reached; the shipped one never fails.
 */
module Categorisation {
  import opened Wrappers
  import opened Models

  /** The closed set of categories the shipped classifier returns. */
  datatype Category = Shopping | Income | Transport | Software | Other
  {
    /** The text stored in the `category` column. */
    function Label(): string {
      match this
      case Shopping => "Shopping"
      case Income => "Income"
      case Transport => "Transport"
      case Software => "Software"
      case Other => "Other"
    }
  }

  /** Lower-casing of one character (ASCII letters only). */
  function LowerChar(c: char): char {
    if 'A' <= c <= 'Z' then (c as int + 32) as char else c
  }

  function Lower(s: string): string {
    seq(|s|, i requires 0 <= i < |s| => LowerChar(s[i]))
  }

  /** The keyword occurs in the text starting at index `i`. */
  predicate OccursAt(text: string, keyword: string, i: nat) {
    i + |keyword| <= |text| && text[i..i + |keyword|] == keyword
  }

  /** `keyword in text` on strings: the keyword occurs as a substring. */
  predicate Contains(text: string, keyword: string) {
    exists i: nat | i <= |text| :: OccursAt(text, keyword, i)
  }

  /** The shipped classifier: keywords checked in a fixed order, `Other` when none occurs. */
  function DetermineCategory(description: string): Category {
    var text := Lower(description);
    if Contains(text, "amazon") then Shopping
    else if Contains(text, "stripe") || Contains(text, "paypal") then Income
    else if Contains(text, "uber") || Contains(text, "lyft") then Transport
    else if Contains(text, "aws") || Contains(text, "azure") then Software
    else Other
  }

  // ---------------------------------------------------------------------------
  // The classifier as a table of keyword rules

  /** A rule assigns its category when any of its keywords occurs. */
  datatype Rule = Rule(keywords: seq<string>, category: Category)

  /** The rules of the shipped classifier, in the order they are tried. */
  const KeywordRules: seq<Rule> := [
    Rule(["amazon"], Shopping),
    Rule(["stripe", "paypal"], Income),
    Rule(["uber", "lyft"], Transport),
    Rule(["aws", "azure"], Software)
  ]

  predicate Matches(text: string, rule: Rule) {
    exists k :: 0 <= k < |rule.keywords| && Contains(text, rule.keywords[k])
  }

  /** The category of the first rule that matches, or the fallback. */
  function FirstMatch(rules: seq<Rule>, text: string, fallback: Category): Category {
    if rules == [] then fallback
    else if Matches(text, rules[0]) then rules[0].category
    else FirstMatch(rules[1..], text, fallback)
  }

  /**
   * First match wins: the result is the category of a matching rule that no
   * earlier rule pre-empts, or the fallback when no rule matches.
   */
  lemma {:induction false} FirstMatchIsFirst(rules: seq<Rule>, text: string, fallback: Category)
    ensures var r := FirstMatch(rules, text, fallback);
      || (exists k :: 0 <= k < |rules| && Matches(text, rules[k]) && r == rules[k].category
                      && forall j :: 0 <= j < k ==> !Matches(text, rules[j]))
      || (r == fallback && forall j :: 0 <= j < |rules| ==> !Matches(text, rules[j]))
  {
    if rules != [] && !Matches(text, rules[0]) {
      FirstMatchIsFirst(rules[1..], text, fallback);
      var r := FirstMatch(rules, text, fallback);
      if exists k :: 0 <= k < |rules[1..]| && Matches(text, rules[1..][k]) && r == rules[1..][k].category
                     && forall j :: 0 <= j < k ==> !Matches(text, rules[1..][j]) {
        var k :| 0 <= k < |rules[1..]| && Matches(text, rules[1..][k]) && r == rules[1..][k].category
                 && forall j :: 0 <= j < k ==> !Matches(text, rules[1..][j]);
        assert rules[k + 1] == rules[1..][k];
        forall j | 0 <= j < k + 1 ensures !Matches(text, rules[j]) {
          if j > 0 { assert rules[j] == rules[1..][j - 1]; }
        }
      } else {
        forall j | 0 <= j < |rules| ensures !Matches(text, rules[j]) {
          if j > 0 { assert rules[j] == rules[1..][j - 1]; }
        }
      }
    }
  }

  /** The if/elif chain is the first-match reading of the rule table. */
  lemma DetermineCategoryFollowsRules(description: string)
    ensures DetermineCategory(description) == FirstMatch(KeywordRules, Lower(description), Other)
  {
    var text := Lower(description);
    assert Matches(text, KeywordRules[0]) <==> Contains(text, "amazon") by {
      assert KeywordRules[0].keywords[0] == "amazon";
    }
    assert Matches(text, KeywordRules[1]) <==> Contains(text, "stripe") || Contains(text, "paypal") by {
      assert KeywordRules[1].keywords[0] == "stripe" && KeywordRules[1].keywords[1] == "paypal";
    }
    assert Matches(text, KeywordRules[2]) <==> Contains(text, "uber") || Contains(text, "lyft") by {
      assert KeywordRules[2].keywords[0] == "uber" && KeywordRules[2].keywords[1] == "lyft";
    }
    assert Matches(text, KeywordRules[3]) <==> Contains(text, "aws") || Contains(text, "azure") by {
      assert KeywordRules[3].keywords[0] == "aws" && KeywordRules[3].keywords[1] == "azure";
    }
    var rules := KeywordRules;
    assert FirstMatch(rules, text, Other) ==
      if Matches(text, rules[0]) then Shopping else FirstMatch(rules[1..], text, Other);
    assert FirstMatch(rules[1..], text, Other) ==
      if Matches(text, rules[1]) then Income else FirstMatch(rules[2..], text, Other);
    assert FirstMatch(rules[2..], text, Other) ==
      if Matches(text, rules[2]) then Transport else FirstMatch(rules[3..], text, Other);
    assert FirstMatch(rules[3..], text, Other) ==
      if Matches(text, rules[3]) then Software else FirstMatch(rules[4..], text, Other);
    assert rules[4..] == [];
  }

  /** `Other` is returned exactly when no keyword of any rule occurs. */
  lemma OtherExactlyWhenNoKeyword(description: string)
    ensures DetermineCategory(description) == Other <==>
            forall j :: 0 <= j < |KeywordRules| ==> !Matches(Lower(description), KeywordRules[j])
  {
    DetermineCategoryFollowsRules(description);
    FirstMatchIsFirst(KeywordRules, Lower(description), Other);
    assert forall j :: 0 <= j < |KeywordRules| ==> KeywordRules[j].category != Other;
  }

  /** Lower-casing twice is lower-casing once. */
  lemma LowerIdempotent(s: string)
    ensures Lower(Lower(s)) == Lower(s)
  {
    assert forall i :: 0 <= i < |s| ==> LowerChar(LowerChar(s[i])) == LowerChar(s[i]);
  }

  /** The classifier only sees the lower-cased description. */
  lemma ClassifierIgnoresCase(description: string)
    ensures DetermineCategory(Lower(description)) == DetermineCategory(description)
  {
    LowerIdempotent(description);
  }

  /** "amazon" wins over every later keyword. */
  lemma AmazonTakesPrecedence(description: string)
    requires Contains(Lower(description), "amazon")
    ensures DetermineCategory(description) == Shopping
  {
  }

  /** A keyword's letters all occur in any text that contains it. */
  lemma ContainsLetters(text: string, keyword: string, c: char)
    requires Contains(text, keyword)
    requires c in keyword
    ensures c in text
  {
    var i: nat :| i <= |text| && OccursAt(text, keyword, i);
    assert i + |keyword| <= |text| && text[i..i + |keyword|] == keyword;
    var k :| 0 <= k < |keyword| && keyword[k] == c;
    assert text[i + k] == text[i..i + |keyword|][k];
  }

  /** The descriptions of the worker's test: an order and a ride. */
  lemma ClassifiesTestDescriptions()
    ensures DetermineCategory("Amazon order #123") == Shopping
    ensures DetermineCategory("Uber ride") == Transport
  {
    var amazon := Lower("Amazon order #123");
    assert amazon[0..6] == "amazon";
    assert OccursAt(amazon, "amazon", 0);
    var uber := Lower("Uber ride");
    assert uber == "uber ride";
    assert uber[0..4] == "uber";
    assert OccursAt(uber, "uber", 0);
    if Contains(uber, "amazon") { ContainsLetters(uber, "amazon", 'a'); }
    if Contains(uber, "stripe") { ContainsLetters(uber, "stripe", 's'); }
    if Contains(uber, "paypal") { ContainsLetters(uber, "paypal", 'p'); }
  }

  /** An empty description matches no keyword and is classified `Other`. */
  lemma EmptyDescriptionIsOther()
    ensures DetermineCategory("") == Other
  {
  }

  // ---------------------------------------------------------------------------
  // The worker

  /** A classifier returns a category label, or raises (an `Err`). */
  type Classifier = string -> Result<string, string>

  /** The shipped classifier as the worker calls it. */
  function ShippedClassifier(description: string): Result<string, string> {
    Ok(DetermineCategory(description).Label())
  }

  /**
   * What the worker leaves in one row of the batch, once its intermediate
   * `Processing` state has been overwritten.
   */
  function ClassifyRow(t: Transaction, classify: Classifier): Transaction {
    match classify(t.description)
    case Ok(chosen) => t.(category := Some(chosen), ingestionStatus := Completed)
    case Err(_) => t.(ingestionStatus := Failed)
  }

  /** The transaction table after the worker has run on `batchId`. */
  function Categorised(transactions: map<Id, Transaction>, batchId: string, classify: Classifier): map<Id, Transaction> {
    map id | id in transactions ::
      if transactions[id].batchId == batchId then ClassifyRow(transactions[id], classify) else transactions[id]
  }

  /** Rows of other batches are unchanged, and no row is added or removed. */
  lemma CategorisedScope(transactions: map<Id, Transaction>, batchId: string, classify: Classifier)
    ensures var after := Categorised(transactions, batchId, classify);
      && after.Keys == transactions.Keys
      && forall id :: id in transactions && transactions[id].batchId != batchId ==> after[id] == transactions[id]
  {
  }

  /**
   * Every row of the batch ends `Completed` with the classifier's label, or
   * `Failed` with its category kept when the classifier raises; none is left
   * `Processing`.
   */
  lemma CategorisedBatchOutcome(transactions: map<Id, Transaction>, batchId: string, classify: Classifier, id: Id)
    requires id in transactions && transactions[id].batchId == batchId
    ensures var t, t' := transactions[id], Categorised(transactions, batchId, classify)[id];
      && (classify(t.description).Ok? ==>
            t'.ingestionStatus == Completed && t'.category == Some(classify(t.description).value))
      && (classify(t.description).Err? ==> t'.ingestionStatus == Failed && t'.category == t.category)
      && t'.ingestionStatus != Processing
  {
  }

  /** The worker writes only the status and the category of a row. */
  lemma CategorisedChangesOnlyEnrichment(transactions: map<Id, Transaction>, batchId: string, classify: Classifier, id: Id)
    requires id in transactions
    ensures var t, t' := transactions[id], Categorised(transactions, batchId, classify)[id];
      t'.(category := t.category, ingestionStatus := t.ingestionStatus) == t
  {
  }

  /** The worker keeps the foreign-key constraint of the store. */
  lemma CategorisedKeepsReferences(accounts: map<Id, Account>, transactions: map<Id, Transaction>,
                                   batchId: string, classify: Classifier)
    requires ReferencesResolve(accounts, transactions)
    ensures ReferencesResolve(accounts, Categorised(transactions, batchId, classify))
  {
  }

  /**
   * Running the worker twice on a batch gives the same table as running it
   * once: a row's batch id and description are not changed by the worker, so
   * the second run reaches the same verdict.
   */
  lemma CategorisedIdempotent(transactions: map<Id, Transaction>, batchId: string, classify: Classifier)
    ensures var once := Categorised(transactions, batchId, classify);
      Categorised(once, batchId, classify) == once
  {
    var once := Categorised(transactions, batchId, classify);
    var twice := Categorised(once, batchId, classify);
    forall id | id in once ensures twice[id] == once[id] {
      var t := transactions[id];
      if t.batchId == batchId {
        match classify(t.description)
        case Ok(chosen) => assert once[id] == t.(category := Some(chosen), ingestionStatus := Completed);
        case Err(_) => assert once[id] == t.(ingestionStatus := Failed);
      }
    }
  }

  /** The shipped classifier never raises, so every row of the batch ends `Completed`. */
  lemma ShippedClassifierCompletesBatch(transactions: map<Id, Transaction>, batchId: string, id: Id)
    requires id in transactions && transactions[id].batchId == batchId
    ensures var t' := Categorised(transactions, batchId, ShippedClassifier)[id];
      && t'.ingestionStatus == Completed
      && t'.category == Some(DetermineCategory(transactions[id].description).Label())
  {
  }

  /**
   * The worker has no pending-only guard: a row of the batch that is already
   * `Completed` is classified again and its category is overwritten.
   */
  lemma CompletedRowIsReclassified(transactions: map<Id, Transaction>, batchId: string, id: Id)
    requires id in transactions
    requires transactions[id] == Transaction("acc_task_test", -2000, "USD", 0, Some("Store"), "Store",
                                             Some("Shopping"), batchId, Completed)
    ensures Categorised(transactions, batchId, ShippedClassifier)[id].category == Some("Other")
  {
    var text := Lower("Store");
    assert text == "store";
    if Contains(text, "amazon") { ContainsLetters(text, "amazon", 'a'); }
    if Contains(text, "paypal") { ContainsLetters(text, "paypal", 'p'); }
    if Contains(text, "stripe") { ContainsLetters(text, "stripe", 'i'); }
    if Contains(text, "uber") { ContainsLetters(text, "uber", 'u'); }
    if Contains(text, "lyft") { ContainsLetters(text, "lyft", 'l'); }
    if Contains(text, "aws") { ContainsLetters(text, "aws", 'a'); }
    if Contains(text, "azure") { ContainsLetters(text, "azure", 'a'); }
  }
}
