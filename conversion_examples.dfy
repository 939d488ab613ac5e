/**
 * Worked conversions that pin down the observable edges of `convertLockName`: repeated
 * placeholders, text inserted by an earlier replacement, placeholders in the prefix, and the
 * example pre-converter leaving `{@userId}` to the core converter.
 */
module ConversionExamples {
  import opened Results
  import opened JavaText
  import opened CallContext
  import opened PreConverters
  import opened Placeholders
  import opened LockNameCoreConverter

  /** A pre-converter that hands the name over untouched. */
  function Identity(raw: string, args: seq<Arg>, ctx: RequestContext): PreResult {
    Returned(raw)
  }

  lemma RepeatedMatches()
    ensures Matches("{id}:{id}") == [Match(0, 3), Match(5, 8)]
  {
    var s := "{id}:{id}";
    assert FindFrom(s, 9) == None;
    assert FindFrom(s, 4) == Some(Match(5, 8));
    assert FindFrom(s, 0) == Some(Match(0, 3));
  }

  lemma RepeatedReplacements()
    ensures ReplaceAll("{id}:{id}", "{id}", "7") == "7:7"
    ensures ReplaceAll("7:7", "{id}", "7") == "7:7"
  {
    var s := "{id}:{id}";
    assert ReplaceFrom(s, "{id}", "7", 9) == "";
    assert OccursAt(s, "{id}", 5);
    assert !OccursAt(s, "{id}", 4) by { assert s[4..8][0] != '{'; }
    assert ReplaceFrom(s, "{id}", "7", 4) == ":7";
    assert OccursAt(s, "{id}", 0);
  }

  lemma RepeatedGroups()
    ensures Text("{id}:{id}", Match(0, 3)) == "{id}" && Field("{id}:{id}", Match(0, 3)) == "id"
    ensures Text("{id}:{id}", Match(5, 8)) == "{id}" && Field("{id}:{id}", Match(5, 8)) == "id"
  {
  }

  lemma RepeatedTokens()
    ensures TokenText("id", Bind([Arg("id", Prim("7"))])) == Some("7")
  {
    assert Bind([Arg("id", Prim("7"))]).params == map["id" := Prim("7")];
  }

  lemma RepeatedFill()
    ensures Fill("{id}:{id}", "{id}:{id}", [Match(0, 3), Match(5, 8)], Bind([Arg("id", Prim("7"))])) == Some("7:7")
  {
    var s := "{id}:{id}";
    var b := Bind([Arg("id", Prim("7"))]);
    var ms := [Match(0, 3), Match(5, 8)];
    RepeatedGroups();
    RepeatedTokens();
    RepeatedReplacements();
    assert ms[1..] == [Match(5, 8)] && ms[1..][1..] == [];
    assert Fill("7:7", s, ms[1..][1..], b) == Some("7:7");
    assert Fill("7:7", s, ms[1..], b) == Some("7:7");
  }

  /** `{id}:{id}` is filled completely by its first match; the second finds nothing left. */
  lemma RepeatedPlaceholderExample(ctx: RequestContext)
    ensures ConvertSpec(CoreConverter("", CustomPreConverter(Identity)), "{id}:{id}", [Arg("id", Prim("7"))], ctx) == Ok("7:7")
  {
    RepeatedFill();
    RepeatedMatches();
    assert PreparedName(CoreConverter("", CustomPreConverter(Identity)), "{id}:{id}", [Arg("id", Prim("7"))], ctx) == Some("{id}:{id}");
  }

  lemma InsertedMatches()
    ensures Matches("{a}{b}") == [Match(0, 2), Match(3, 5)]
  {
    var s := "{a}{b}";
    assert FindFrom(s, 6) == None;
    assert FindFrom(s, 3) == Some(Match(3, 5));
    assert FindFrom(s, 0) == Some(Match(0, 2));
  }

  lemma InsertedReplacements()
    ensures ReplaceAll("{a}{b}", "{a}", "{b}") == "{b}{b}"
    ensures ReplaceAll("{b}{b}", "{b}", "x") == "xx"
  {
    var s := "{a}{b}";
    assert !OccursAt(s, "{a}", 3) by { assert s[3..6][1] != 'a'; }
    assert ReplaceFrom(s, "{a}", "{b}", 3) == "{b}";
    assert OccursAt(s, "{a}", 0);
    var u := "{b}{b}";
    assert OccursAt(u, "{b}", 3);
    assert ReplaceFrom(u, "{b}", "x", 3) == "x";
    assert OccursAt(u, "{b}", 0);
  }

  lemma InsertedGroups()
    ensures Text("{a}{b}", Match(0, 2)) == "{a}" && Field("{a}{b}", Match(0, 2)) == "a"
    ensures Text("{a}{b}", Match(3, 5)) == "{b}" && Field("{a}{b}", Match(3, 5)) == "b"
  {
  }

  lemma InsertedTokens()
    ensures var b := Bind([Arg("a", Prim("{b}")), Arg("b", Prim("x"))]);
            TokenText("a", b) == Some("{b}") && TokenText("b", b) == Some("x")
  {
    var args := [Arg("a", Prim("{b}")), Arg("b", Prim("x"))];
    assert args[..1] == [Arg("a", Prim("{b}"))];
    assert Bind(args[..1]).params == map["a" := Prim("{b}")];
    assert Bind(args).params == map["a" := Prim("{b}"), "b" := Prim("x")];
  }

  lemma InsertedFill()
    ensures Fill("{a}{b}", "{a}{b}", [Match(0, 2), Match(3, 5)], Bind([Arg("a", Prim("{b}")), Arg("b", Prim("x"))])) == Some("xx")
  {
    var s := "{a}{b}";
    var b := Bind([Arg("a", Prim("{b}")), Arg("b", Prim("x"))]);
    var ms := [Match(0, 2), Match(3, 5)];
    InsertedGroups();
    InsertedTokens();
    InsertedReplacements();
    assert ms[1..] == [Match(3, 5)] && ms[1..][1..] == [];
    assert Fill("xx", s, ms[1..][1..], b) == Some("xx");
    assert Fill("{b}{b}", s, ms[1..], b) == Some("xx");
  }

  /**
   * The value of `{a}` is itself the text `{b}`: the later replacement of `{b}` rewrites the
   * inserted text as well, because it applies to the current name.
   */
  lemma InsertedTextExample(ctx: RequestContext)
    ensures ConvertSpec(CoreConverter("", CustomPreConverter(Identity)), "{a}{b}", [Arg("a", Prim("{b}")), Arg("b", Prim("x"))], ctx) == Ok("xx")
  {
    InsertedFill();
    InsertedMatches();
    assert PreparedName(CoreConverter("", CustomPreConverter(Identity)), "{a}{b}", [Arg("a", Prim("{b}")), Arg("b", Prim("x"))], ctx) == Some("{a}{b}");
  }

  lemma PrefixMatches()
    ensures Matches("{t}:x") == [Match(0, 2)]
  {
    var s := "{t}:x";
    assert FindFrom(s, 3) == None;
    assert FindFrom(s, 0) == Some(Match(0, 2));
  }

  lemma PrefixFill()
    ensures Fill("{t}:x", "{t}:x", [Match(0, 2)], Bind([Arg("t", Prim("A"))])) == Some("A:x")
  {
    var s := "{t}:x";
    var b := Bind([Arg("t", Prim("A"))]);
    var ms := [Match(0, 2)];
    assert b.params == map["t" := Prim("A")];
    assert TokenText("t", b) == Some("A");
    assert ReplaceAll(s, "{t}", "A") == "A:x";
    assert Text(s, ms[0]) == "{t}" && Field(s, ms[0]) == "t";
    assert ms[1..] == [];
  }

  /** The prefix is put in front before scanning, so a placeholder in it is filled too. */
  lemma PrefixPlaceholderExample(ctx: RequestContext)
    ensures ConvertSpec(CoreConverter("{t}:", CustomPreConverter(Identity)), "x", [Arg("t", Prim("A"))], ctx) == Ok("A:x")
  {
    PrefixFill();
    PrefixMatches();
    assert !IsBlank("{t}:") by { assert !IsWhitespace('{'); }
    assert "{t}:" + "x" == "{t}:x";
    assert PreparedName(CoreConverter("{t}:", CustomPreConverter(Identity)), "x", [Arg("t", Prim("A"))], ctx) == Some("{t}:x");
  }

  lemma UserIdMatches()
    ensures Matches("{@userId}") == [Match(0, 8)]
  {
    var s := "{@userId}";
    assert FindFrom(s, 9) == None;
    assert CloseFrom(s, 1) == Some(8);
    assert FindFrom(s, 0) == Some(Match(0, 8));
  }

  lemma UserIdGroup()
    ensures Text(USER_ID_MATCH, Match(0, 8)) == USER_ID_MATCH && Field(USER_ID_MATCH, Match(0, 8)) == "@userId"
  {
  }

  lemma UserIdReplacement()
    ensures ReplaceAll(USER_ID_MATCH, USER_ID_MATCH, "null") == "null"
  {
    var s := USER_ID_MATCH;
    assert OccursAt(s, s, 0);
    assert ReplaceFrom(s, s, "null", |s|) == [];
  }

  lemma UserIdFill()
    ensures Fill(USER_ID_MATCH, USER_ID_MATCH, [Match(0, 8)], Bind([])) == Some("null")
  {
    var ms := [Match(0, 8)];
    UserIdGroup();
    assert TokenText("@userId", Bind([])) == Some("null");
    UserIdReplacement();
    assert ms[1..] == [];
  }

  /**
   * Under the example pre-converter `{@userId}` is an ordinary placeholder: no parameter has that
   * name, so with no bound argument it becomes "null".
   */
  lemma UserIdUnderExampleConverter(ctx: RequestContext)
    ensures ConvertSpec(CoreConverter("", MyPreConverter), USER_ID_MATCH, [], ctx) == Ok("null")
  {
    UserIdFill();
    UserIdMatches();
    MyPreConvertKeepsUserId(ctx);
    assert PreparedName(CoreConverter("", MyPreConverter), USER_ID_MATCH, [], ctx) == Some(USER_ID_MATCH);
  }

  /**
   * `{id}` bound to an object whose `toString()` throws or returns null: `String.valueOf` or the
   * `replace` it feeds throws, and the conversion fails with status 2.
   */
  lemma UnprintableArgumentFails(ctx: RequestContext)
    ensures ConvertSpec(CoreConverter("", CustomPreConverter(Identity)), "{id}", [Arg("id", Obj(None, map[], false))], ctx) == Err(ConvertFailure())
  {
    var s := "{id}";
    var b := Bind([Arg("id", Obj(None, map[], false))]);
    assert FindFrom(s, 4) == None;
    assert FindFrom(s, 0) == Some(Match(0, 3));
    assert Matches(s) == [Match(0, 3)];
    assert Field(s, Match(0, 3)) == "id";
    assert b.params == map["id" := Obj(None, map[], false)];
    assert TokenText("id", b) == None;
    assert PreparedName(CoreConverter("", CustomPreConverter(Identity)), s, [Arg("id", Obj(None, map[], false))], ctx) == Some(s);
  }

  /** `{.}`: `split` gives an empty array, and the conversion fails with status 2. */
  lemma DotOnlyPlaceholderFails(ctx: RequestContext, args: seq<Arg>)
    ensures ConvertSpec(CoreConverter("", CustomPreConverter(Identity)), "{.}", args, ctx) == Err(ConvertFailure())
  {
    var s := "{.}";
    assert FindFrom(s, 3) == None;
    assert FindFrom(s, 0) == Some(Match(0, 2));
    assert Matches(s) == [Match(0, 2)];
    assert Field(s, Match(0, 2)) == ".";
    TokenFailsIff(".", Bind(args));
    assert PreparedName(CoreConverter("", CustomPreConverter(Identity)), s, args, ctx) == Some(s);
  }
}
