/**
 * The Express back end: the rule-based priority classifier, the bearer-token
 * middleware, and the request handlers, each running the SQL statements of
 * `Store.Database` in the order the handler issues them.
 */
module NodeServer {
  import opened Wrappers
  import opened Vocabulary
  import opened Text
  import opened Credentials
  import opened Store
  import opened Http

  // ------------------------------------------------------ priority classifier

  const HIGH_KEYWORDS: seq<string> :=
    ["urgent", "emergency", "critical", "danger", "life", "death", "severe", "immediate"]
  const HIGH_CATEGORIES: seq<string> := ["health", "safety", "water", "electricity"]
  const MEDIUM_KEYWORDS: seq<string> := ["problem", "issue", "broken", "damaged", "not working"]

  /** Some high-urgency keyword occurs in the lower-cased description. */
  ghost predicate HasHighKeyword(description: string)
  {
    exists k :: k in HIGH_KEYWORDS && IsSubstring(k, Lower(description))
  }

  /** Some medium-urgency keyword occurs in the lower-cased description. */
  ghost predicate HasMediumKeyword(description: string)
  {
    exists k :: k in MEDIUM_KEYWORDS && IsSubstring(k, Lower(description))
  }

  /** The lower-cased category equals one of the high-priority categories as a whole string. */
  predicate IsHighCategory(category: string)
  {
    Lower(category) in HIGH_CATEGORIES
  }

  /**
   * `assignPriority`: High when a high keyword occurs in the description or
   * the category is a high category; otherwise Medium when a medium keyword
   * occurs; otherwise Low.
   */
  function AssignPriority(description: string, category: string): (p: Priority)
    ensures p == High <==> HasHighKeyword(description) || IsHighCategory(category)
    ensures p == Medium <==> !HasHighKeyword(description) && !IsHighCategory(category) && HasMediumKeyword(description)
    ensures p == Low <==> !HasHighKeyword(description) && !IsHighCategory(category) && !HasMediumKeyword(description)
  {
    var descLower := Lower(description);
    if AnyContains(descLower, HIGH_KEYWORDS) || Lower(category) in HIGH_CATEGORIES then High
    else if AnyContains(descLower, MEDIUM_KEYWORDS) then Medium
    else Low
  }

  /** A keyword found in a description is still found after text is added on either side. */
  lemma KeywordSurvivesExtension(keywords: seq<string>, description: string, before: string, after: string)
    requires exists k :: k in keywords && IsSubstring(k, Lower(description))
    ensures exists k :: k in keywords && IsSubstring(k, Lower(before + description + after))
  {
    var k :| k in keywords && IsSubstring(k, Lower(description));
    LowerAppend(before, description);
    LowerAppend(before + description, after);
    SubstringOfExtension(k, Lower(description), Lower(before), Lower(after));
  }

  /** Adding text to a description, before or after it, never lowers its priority. */
  lemma ExtendingNeverLowersPriority(description: string, before: string, after: string, category: string)
    ensures Rank(AssignPriority(description, category)) <= Rank(AssignPriority(before + description + after, category))
  {
    if HasHighKeyword(description) {
      KeywordSurvivesExtension(HIGH_KEYWORDS, description, before, after);
    }
    if HasMediumKeyword(description) {
      KeywordSurvivesExtension(MEDIUM_KEYWORDS, description, before, after);
    }
  }

  /** The categories offered by the complaint form. */
  const FORM_CATEGORIES: seq<string> :=
    ["Water Supply", "Electricity", "Roads", "Sanitation", "Health", "Safety", "Education", "Transportation", "Other"]

  /** The lower-cased names of the form's categories that name a utility or a risk. */
  lemma FormCategoriesLoweredFirst()
    ensures Lower("Water Supply") == "water supply" && Lower("Electricity") == "electricity"
    ensures Lower("Health") == "health" && Lower("Safety") == "safety"
  {
  }

  /** The lower-cased names of the form's other categories. */
  lemma FormCategoriesLoweredRest()
    ensures Lower("Roads") == "roads" && Lower("Sanitation") == "sanitation"
    ensures Lower("Education") == "education" && Lower("Transportation") == "transportation"
    ensures Lower("Other") == "other"
  {
  }

  /**
   * Category matching is whole-string: of the form's categories exactly
   * Electricity, Health and Safety force High, and "Water Supply" does not.
   */
  lemma FormCategoriesThatForceHigh(description: string)
    ensures forall c :: c in FORM_CATEGORIES ==> (IsHighCategory(c) <==> c in ["Electricity", "Health", "Safety"])
    ensures forall c :: c in ["Electricity", "Health", "Safety"] ==> AssignPriority(description, c) == High
    ensures AssignPriority(description, "Water Supply") == AssignPriority(description, "Other")
  {
    FormCategoriesLoweredFirst();
    FormCategoriesLoweredRest();
    assert !IsHighCategory("Water Supply") && !IsHighCategory("Other");
  }

  /** The first four high keywords do not occur in "no issues here". */
  lemma NoUrgentWordInNoIssuesHere(h: string)
    requires h == "no issues here"
    ensures !IsSubstring("urgent", h) && !IsSubstring("emergency", h)
    ensures !IsSubstring("critical", h) && !IsSubstring("danger", h)
  {
    AbsentChar("urgent", h, 'g');
    AbsentChar("emergency", h, 'm');
    AbsentChar("critical", h, 'c');
    AbsentChar("danger", h, 'd');
  }

  /** The last four high keywords do not occur in "no issues here". */
  lemma NoGraveWordInNoIssuesHere(h: string)
    requires h == "no issues here"
    ensures !IsSubstring("life", h) && !IsSubstring("death", h)
    ensures !IsSubstring("severe", h) && !IsSubstring("immediate", h)
  {
    AbsentChar("life", h, 'l');
    AbsentChar("death", h, 'd');
    AbsentChar("severe", h, 'v');
    AbsentChar("immediate", h, 'm');
  }

  /** Raw substring search: "no issues here" contains "issue", so it is Medium. */
  lemma NoIssuesHereIsMedium()
    ensures AssignPriority("no issues here", "Water Supply") == Medium
  {
    var h := "no issues here";
    assert Lower(h) == h;
    assert Lower("Water Supply") == "water supply";
    NoUrgentWordInNoIssuesHere(h);
    NoGraveWordInNoIssuesHere(h);
    assert !HasHighKeyword(h);
    assert OccursAt("issue", h, 3);
    assert "issue" in MEDIUM_KEYWORDS && IsSubstring("issue", Lower(h));
    assert HasMediumKeyword(h);
  }

  /** Raw substring search: "wildlife" contains "life", so it is High whatever the category. */
  lemma WildlifeIsHigh(category: string)
    ensures AssignPriority("wildlife", category) == High
  {
    var h := "wildlife";
    assert Lower(h) == h;
    assert OccursAt("life", h, 4);
    assert "life" in HIGH_KEYWORDS && IsSubstring("life", Lower(h));
    assert HasHighKeyword(h);
  }

  /** An empty description is decided by the category alone. */
  lemma EmptyDescription(category: string)
    ensures AssignPriority("", category) == if IsHighCategory(category) then High else Low
  {
    assert Lower("") == "";
    forall k | k in HIGH_KEYWORDS + MEDIUM_KEYWORDS ensures !IsSubstring(k, "") {
      assert forall i :: !OccursAt(k, "", i);
    }
  }

  // ------------------------------------------------------- bearer middleware

  /** `authHeader && authHeader.split(' ')[1]`, kept only when it is a non-empty string. */
  function BearerToken(header: Option<string>): (token: Option<string>)
    ensures token.Some? ==> token.value != "" && ' ' !in token.value
  {
    if header.None? || header.value == "" then None
    else
      var fields := Split(header.value, ' ');
      if |fields| >= 2 && fields[1] != "" then Some(fields[1]) else None
  }

  /**
   * `authenticateToken`: no token gives 401, a token that does not verify
   * gives 403, and otherwise the request proceeds as the user whose id the
   * token carries. Nothing else in the claims is read.
   */
  function AuthenticateToken(header: Option<string>, verify: string -> Option<Claims>): (r: AuthResult)
    ensures header.None? ==> r == MissingToken
    ensures r.Authenticated? ==>
              && BearerToken(header).Some?
              && verify(BearerToken(header).value).Some?
              && verify(BearerToken(header).value).value.id == r.userId
  {
    match BearerToken(header)
    case None => MissingToken
    case Some(token) =>
      match verify(token)
      case None => InvalidToken
      case Some(claims) => Authenticated(claims.id)
  }

  /** The token is the second space-separated field, whatever the first one says. */
  lemma TokenIsSecondField(scheme: string, token: string, rest: seq<string>)
    requires ' ' !in scheme && ' ' !in token && token != ""
    requires forall f :: f in rest ==> ' ' !in f
    ensures BearerToken(Some(Join([scheme, token] + rest, ' '))) == Some(token)
  {
    var fields := [scheme, token] + rest;
    SplitJoin(fields, ' ');
    assert Join(fields, ' ') != "" by {
      assert Join(fields, ' ') == scheme + [' '] + Join(fields[1..], ' ');
    }
  }

  /** A header that is a single word, or a word and one trailing space, carries no token. */
  lemma NoSecondFieldNoToken(word: string)
    requires ' ' !in word
    ensures BearerToken(Some(word)) == None
    ensures BearerToken(Some(word + " ")) == None
  {
    SplitWithoutSeparator(word, ' ');
    SplitAtFirstSeparator(word, ' ', "");
    SplitWithoutSeparator("", ' ');
    assert word + [' '] + "" == word + " ";
  }

  /** The outcomes of the middleware: 401 without a token, 403 when verification fails, the token's id otherwise. */
  lemma AuthOutcomes(header: Option<string>, verify: string -> Option<Claims>)
    ensures header.None? ==> AuthenticateToken(header, verify) == MissingToken
    ensures BearerToken(header).None? <==> AuthenticateToken(header, verify) == MissingToken
    ensures (BearerToken(header).Some? && verify(BearerToken(header).value).None?)
              <==> AuthenticateToken(header, verify) == InvalidToken
    ensures AuthenticateToken(header, verify).Authenticated? ==>
              verify(BearerToken(header).value).Some?
              && AuthenticateToken(header, verify).userId == verify(BearerToken(header).value).value.id
  {
  }

  /** Two verifiers that accept the same tokens with the same ids give the same outcome: the role is never read. */
  lemma OnlyTheIdIsRead(header: Option<string>, verify1: string -> Option<Claims>, verify2: string -> Option<Claims>)
    requires forall t :: verify1(t).Some? <==> verify2(t).Some?
    requires forall t :: verify1(t).Some? ==> verify1(t).value.id == verify2(t).value.id
    ensures AuthenticateToken(header, verify1) == AuthenticateToken(header, verify2)
  {
  }

  /** A citizen's token (no role claim) passes the middleware in front of the admin routes. */
  lemma CitizenTokenPassesAdminGate(scheme: string, token: string, verify: string -> Option<Claims>, id: int)
    requires ' ' !in scheme && ' ' !in token && token != ""
    requires verify(token) == Some(Claims(id, None))
    ensures AuthenticateToken(Some(scheme + " " + token), verify) == Authenticated(id)
  {
    TokenIsSecondField(scheme, token, []);
    assert Join([scheme, token], ' ') == scheme + " " + token;
  }
}
