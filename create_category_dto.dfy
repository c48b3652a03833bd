/** The body of `POST /categories`. */
module CreateCategoryDto {
  import opened Values
  import opened Validation

  /** The decorators of `CreateCategoryDto`, property by property. */
  const Rules: Schema := [
    PropertyRule("name", [IsNotEmpty, IsString]),
    PropertyRule("description", [IsOptional, IsString])
  ]

  const Keys: set<string> := {"name", "description"}

  /** A body the endpoint accepts: a non-empty text `name`, an optional text
      `description`, and no other key. */
  predicate Valid(body: Body) {
    && body.Keys <= Keys
    && NonEmptyString(Get(body, "name"))
    && OptionalString(Get(body, "description"))
  }

  /** The decorators accept exactly the valid bodies. */
  lemma RulesAcceptExactlyValid(body: Body)
    ensures Accepts(Rules, body) <==> Valid(body)
  {
    AcceptsIff(Rules, body);
    assert Rules[0].key == "name" && Rules[1].key == "description";
    assert DeclaredKeys(Rules) == Keys;
    AllHoldOfTwo(IsNotEmpty, IsString, Get(body, "name"));
    AllHoldOfTwo(IsOptional, IsString, Get(body, "description"));
    assert (forall i :: 0 <= i < |Rules| ==> RuleHolds(Rules[i], body))
      <==> RuleHolds(Rules[0], body) && RuleHolds(Rules[1], body);
  }

  /** An accepted body names the category with a non-empty text; a description,
      when given, is a text. */
  lemma AcceptedBodyFields(body: Body)
    requires Accepts(Rules, body)
    ensures "name" in body && body["name"].Str? && body["name"].s != ""
    ensures "description" in body && !Nullish(body["description"]) ==> body["description"].Str?
  {
    RulesAcceptExactlyValid(body);
  }

  /** A name alone is enough, and the description may be left out. */
  lemma DescriptionOptional(name: string)
    requires name != ""
    ensures Accepts(Rules, map["name" := Str(name)])
  {
    RulesAcceptExactlyValid(map["name" := Str(name)]);
  }

  /** No key besides `name` and `description` is accepted. */
  lemma UndeclaredKeyRejected(body: Body, k: string)
    requires k in body && k !in Keys
    ensures !Accepts(Rules, body)
  {
    RulesAcceptExactlyValid(body);
  }
}
