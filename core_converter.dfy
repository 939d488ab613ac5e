/**
 * `LockNameCoreConverter.convertLockName`: the pre-converter runs first, then the configured prefix
 * is put in front, then every `{...}` placeholder of the resulting string is replaced by the value it
 * names. `ConvertSpec` states the result as a function of the inputs; the method `ConvertLockName`
 * follows the loop of the source and is proved to compute it.
 */
module LockNameCoreConverter {
  import opened Results
  import opened JavaText
  import opened CallContext
  import opened LockException
  import opened PreConverters
  import opened Placeholders

  /** `distributed-lock.prefix` when not configured. */
  const DEFAULT_PREFIX := "lock:"

  const PRE_CONVERT_MESSAGE :=
    "An exception occurred while pre convert lock name, please check the LockNamePreConverter.preConvertLockName method."
  const CONVERT_MESSAGE := "An exception occurred while convert lock name."

  /** The converter bean: the configured prefix and the pre-converter it was wired with. */
  datatype CoreConverter = CoreConverter(prefix: string := DEFAULT_PREFIX, pre: PreConverter := DefaultPreConverter)

  /** The prefix goes in front unless it is blank. */
  function Prefixed(prefix: string, name: string): string {
    if IsBlank(prefix) then name else prefix + name
  }

  // ---------------------------------------------------------------- binding

  /**
   * `getFieldValue`: a declared field of the object, or null when it cannot be read.
   * `readDeclaredField` rejects a blank field name, and that exception is caught too.
   */
  function GetFieldValue(o: Value, field: string): (r: Value)
    ensures o.Obj? && !IsBlank(field) && field in o.fields ==> r == o.fields[field]
    ensures !(o.Obj? && !IsBlank(field) && field in o.fields) ==> r.Null?
  {
    match o
    case Obj(_, fields, _) => if !IsBlank(field) && field in fields then fields[field] else Null
    case _ => Null
  }

  /** `HashMap.get`: null for a missing key. */
  function Lookup(params: map<string, Value>, name: string): Value {
    if name in params then params[name] else Null
  }

  /** The lazily built `paramMap` and `tempObj`. */
  datatype Bindings = Bindings(params: map<string, Value>, last: Value)

  /** Argument `i` takes part in binding and no later argument binding the same name does. */
  ghost predicate LastBinding(args: seq<Arg>, i: int) {
    0 <= i < |args| && !Excluded(args[i])
    && forall k :: i < k < |args| ==> Excluded(args[k]) || args[k].name != args[i].name
  }

  /** Argument `i` is the last one that takes part in binding. */
  ghost predicate LastBound(args: seq<Arg>, i: int) {
    0 <= i < |args| && !Excluded(args[i]) && forall k :: i < k < |args| ==> Excluded(args[k])
  }

  /**
   * The parameter map built from the arguments in order (a later `put` overwrites an earlier one),
   * skipping request and response arguments; `last` is the last argument put, null if none.
   */
  function Bind(args: seq<Arg>): Bindings {
    if |args| == 0 then Bindings(map[], Null)
    else
      var b := Bind(args[..|args| - 1]);
      var a := args[|args| - 1];
      if Excluded(a) then b else Bindings(b.params[a.name := a.value], a.value)
  }

  /** The map's keys are the names of the arguments taking part in binding. */
  lemma {:induction false} BindKeys(args: seq<Arg>)
    ensures forall name :: name in Bind(args).params <==> exists i :: 0 <= i < |args| && !Excluded(args[i]) && args[i].name == name
  {
    if |args| > 0 {
      var init := args[..|args| - 1];
      BindKeys(init);
      assert forall i :: 0 <= i < |init| ==> init[i] == args[i];
    }
  }

  /** Each name is bound to the last argument that carries it. */
  lemma {:induction false} BindValues(args: seq<Arg>)
    ensures forall i :: LastBinding(args, i) ==> args[i].name in Bind(args).params && Bind(args).params[args[i].name] == args[i].value
  {
    if |args| > 0 {
      var init := args[..|args| - 1];
      BindValues(init);
      forall i | LastBinding(args, i)
        ensures args[i].name in Bind(args).params && Bind(args).params[args[i].name] == args[i].value
      {
        if i < |init| {
          assert init[i] == args[i];
          assert forall k :: i < k < |init| ==> init[k] == args[k];
          assert LastBinding(init, i);
        }
      }
    }
  }

  /** `tempObj` is the last argument taking part in binding, or null when there is none. */
  lemma {:induction false} BindLast(args: seq<Arg>)
    ensures forall i :: LastBound(args, i) ==> Bind(args).last == args[i].value
    ensures (forall i :: 0 <= i < |args| ==> Excluded(args[i])) ==> Bind(args) == Bindings(map[], Null)
  {
    if |args| > 0 {
      var init := args[..|args| - 1];
      BindLast(init);
      forall i | LastBound(args, i) ensures Bind(args).last == args[i].value {
        if i < |init| {
          assert init[i] == args[i];
          assert forall k :: i < k < |init| ==> init[k] == args[k];
          assert LastBound(init, i);
        }
      }
      if forall i :: 0 <= i < |args| ==> Excluded(args[i]) {
        assert forall i :: 0 <= i < |init| ==> init[i] == args[i];
      }
    }
  }

  /**
   * With one argument taking part in binding, however many request and response arguments
   * surround it, the map has exactly one entry and `tempObj` is that argument.
   */
  lemma SingleBinding(args: seq<Arg>, j: nat)
    requires j < |args| && !Excluded(args[j])
    requires forall k :: 0 <= k < |args| && k != j ==> Excluded(args[k])
    ensures Bind(args).params == map[args[j].name := args[j].value]
    ensures |Bind(args).params| == 1 && Bind(args).last == args[j].value
  {
    var b := Bind(args);
    BindKeys(args);
    BindValues(args);
    BindLast(args);
    assert LastBinding(args, j) && LastBound(args, j);
    assert b.params.Keys == {args[j].name};
  }

  /** The value at the end of a dotted path: stop at null, otherwise read the next declared field. */
  function Walk(o: Value, path: seq<string>): (r: Value)
    ensures o.Null? ==> r.Null?
    ensures path == [] ==> r == o
    decreases |path|
  {
    if |path| == 0 || o.Null? then o else Walk(GetFieldValue(o, path[0]), path[1..])
  }

  /**
   * The value a placeholder's field stands for; None when evaluating it throws (a dotted field
   * that `split` turns into an empty array).
   */
  function TokenValue(field: string, b: Bindings): Option<Value> {
    if '.' !in field then
      if field in b.params then Some(b.params[field])
      else if |b.params| == 1 then Some(if b.last.Null? then Null else GetFieldValue(b.last, field))
      else Some(Null)
    else
      var split := SplitDot(field);
      if |split| == 0 then None else Some(Walk(Lookup(b.params, split[0]), split[1..]))
  }

  /** `String.valueOf` of the placeholder's value: the text that replaces it. */
  function TokenText(field: string, b: Bindings): Option<string> {
    match TokenValue(field, b)
    case None => None
    case Some(v) => ValueOf(v)
  }

  /** The field names a dotted path but `split` leaves nothing of it. */
  ghost predicate AllDots(field: string) {
    '.' in field && forall k :: 0 <= k < |field| ==> field[k] == '.'
  }

  /** Evaluating a placeholder throws exactly when its field is made of dots only. */
  lemma TokenFailsIff(field: string, b: Bindings)
    ensures TokenValue(field, b).None? <==> AllDots(field)
  {
    if '.' in field {
      SplitDotEmpty(field);
    }
  }

  /**
   * Evaluating a placeholder throws: its field is dots only, or the value it stands for is an
   * object whose `toString()` throws or gives null.
   */
  ghost predicate Throws(field: string, b: Bindings) {
    AllDots(field) || (TokenValue(field, b).Some? && TokenValue(field, b).value.Obj? && TokenValue(field, b).value.toString.None?)
  }

  /** The text for a placeholder is missing exactly when evaluating it throws. */
  lemma TokenTextFailsIff(field: string, b: Bindings)
    ensures TokenText(field, b).None? <==> Throws(field, b)
  {
    TokenFailsIff(field, b);
  }

  /** An undotted field naming a parameter stands for that argument; a null one prints as "null". */
  lemma ParameterToken(field: string, b: Bindings)
    requires '.' !in field && field in b.params
    ensures TokenValue(field, b) == Some(b.params[field])
    ensures b.params[field].Null? ==> TokenText(field, b) == Some("null")
  {
  }

  /**
   * An undotted field naming no parameter reads that field of the single bound argument when
   * there is exactly one, and is null otherwise.
   */
  lemma ShorthandToken(field: string, b: Bindings)
    requires '.' !in field && field !in b.params
    ensures |b.params| == 1 && b.last.Obj? && !IsBlank(field) && field in b.last.fields ==> TokenValue(field, b) == Some(b.last.fields[field])
    ensures |b.params| == 1 && (!b.last.Obj? || IsBlank(field) || field !in b.last.fields) ==> TokenValue(field, b) == Some(Null)
    ensures |b.params| != 1 ==> TokenValue(field, b) == Some(Null)
  {
  }

  /** `{a.}`: the trailing empty segment is dropped, leaving the plain lookup of parameter `a`. */
  lemma TrailingDotToken(a: string, b: Bindings)
    requires a != [] && '.' !in a
    ensures TokenValue(a + ".", b) == Some(Lookup(b.params, a))
  {
    SplitOnDotsAfter(a, "");
    assert a + "." + "" == a + ".";
    assert '.' in a + "." by { assert (a + ".")[|a|] == '.'; }
    assert SplitOnDots(a + ".") == [a, ""];
    assert DropTrailingEmpty([a, ""]) == DropTrailingEmpty([a]) by { assert [a, ""][..1] == [a]; }
    assert SplitDot(a + ".") == [a];
  }

  /**
   * `{a.f}`: parameter `a` looked up, then its declared field `f` read, unless `a` is null
   * (or not bound, which gives null too).
   */
  lemma FieldPathToken(a: string, f: string, b: Bindings)
    requires a != [] && f != [] && '.' !in a && '.' !in f
    ensures Lookup(b.params, a).Null? ==> TokenValue(a + "." + f, b) == Some(Null)
    ensures TokenValue(a + "." + f, b) == Some(if Lookup(b.params, a).Null? then Null else GetFieldValue(Lookup(b.params, a), f))
  {
    SplitOnDotsAfter(a, f);
    SplitOnDotsNoDot(f);
    assert '.' in a + "." + f by { assert (a + "." + f)[|a|] == '.'; }
    assert SplitDot(a + "." + f) == [a, f];
  }

  /**
   * A multi-level path such as `{user.address.id}` looks up its first segment among the
   * parameters and then reads one field per further segment, stopping at the first null.
   */
  lemma DottedPathToken(a: string, path: seq<string>, b: Bindings)
    requires '.' !in a
    requires |path| >= 1 && path[|path| - 1] != []
    requires forall k :: 0 <= k < |path| ==> '.' !in path[k]
    ensures TokenValue(JoinWithDots([a] + path), b) == Some(Walk(Lookup(b.params, a), path))
  {
    var parts := [a] + path;
    forall k | 0 <= k < |parts| ensures '.' !in parts[k] {
      if k > 0 { assert parts[k] == path[k - 1]; }
    }
    SplitJoin(parts);
    assert parts[1..] == path;
    var field := JoinWithDots(parts);
    assert field == a + "." + JoinWithDots(path);
    assert '.' in field by { assert field[|a|] == '.'; }
    assert SplitDot(field) == parts;
  }

  // ---------------------------------------------------------------- substitution

  /**
   * The loop over the matches `ms` of the scanned string `s`: each match's text is replaced, by
   * `String.replace`, in the current name `cur`; None when evaluating a field throws.
   */
  function Fill(cur: string, s: string, ms: seq<Match>, b: Bindings): Option<string>
    requires forall i :: 0 <= i < |ms| ==> InBounds(s, ms[i])
    decreases |ms|
  {
    if ms == [] then Some(cur)
    else match TokenText(Field(s, ms[0]), b)
      case None => None
      case Some(text) => Fill(ReplaceAll(cur, Text(s, ms[0]), text), s, ms[1..], b)
  }

  /**
   * The substitution throws exactly when evaluating one of the matches throws: its field is
   * dots only, or its value's `toString()` throws or returns null.
   */
  lemma {:induction false} FillFailsIff(cur: string, s: string, ms: seq<Match>, b: Bindings)
    requires forall i :: 0 <= i < |ms| ==> InBounds(s, ms[i])
    ensures Fill(cur, s, ms, b).None? <==> exists i :: 0 <= i < |ms| && Throws(Field(s, ms[i]), b)
    decreases |ms|
  {
    if ms != [] {
      TokenTextFailsIff(Field(s, ms[0]), b);
      if TokenText(Field(s, ms[0]), b).Some? {
        var text := TokenText(Field(s, ms[0]), b).value;
        FillFailsIff(ReplaceAll(cur, Text(s, ms[0]), text), s, ms[1..], b);
        assert forall i :: 1 <= i < |ms| ==> ms[i] == ms[1..][i - 1];
        assert forall i :: 0 <= i < |ms[1..]| ==> ms[1..][i] == ms[i + 1];
      }
    }
  }

  /** The substitution of every match the matcher finds in `s` from position `from` on. */
  function FillFrom(cur: string, s: string, from: nat, b: Bindings): Option<string> {
    Fill(cur, s, MatchesFrom(s, from), b)
  }

  /** One turn of the matcher loop whose placeholder throws: the whole substitution throws. */
  lemma FillStepFails(cur: string, s: string, from: nat, m: Match, b: Bindings)
    requires FindFrom(s, from) == Some(m) && TokenText(Field(s, m), b).None?
    ensures FillFrom(cur, s, from, b).None?
  {
    assert MatchesFrom(s, from) == [m] + MatchesFrom(s, m.close + 1);
  }

  /** One turn of the matcher loop: the leftmost match is filled in, then the rest from past it. */
  lemma FillStep(cur: string, s: string, from: nat, m: Match, b: Bindings, text: string)
    requires FindFrom(s, from) == Some(m) && TokenText(Field(s, m), b) == Some(text)
    ensures FillFrom(cur, s, from, b) == FillFrom(ReplaceAll(cur, Text(s, m), text), s, m.close + 1, b)
  {
    assert MatchesFrom(s, from) == [m] + MatchesFrom(s, m.close + 1);
    assert MatchesFrom(s, from)[1..] == MatchesFrom(s, m.close + 1);
  }

  /** The matcher finds nothing more: the current name is the result. */
  lemma FillDone(cur: string, s: string, from: nat, b: Bindings)
    requires FindFrom(s, from).None?
    ensures FillFrom(cur, s, from, b) == Some(cur)
  {
  }

  function PreConvertFailure(): DistributedLockException {
    DistributedLockException(NAME_CONVERSION, PRE_CONVERT_MESSAGE)
  }

  function ConvertFailure(): DistributedLockException {
    DistributedLockException(NAME_CONVERSION, CONVERT_MESSAGE)
  }

  /** The name the pre-converter hands over, prefixed; None when it throws or returns null. */
  function PreparedName(c: CoreConverter, raw: string, args: seq<Arg>, ctx: RequestContext): Option<string> {
    match PreConvert(c.pre, raw, args, ctx)
    case Returned(name) => Some(Prefixed(c.prefix, name))
    case _ => None
  }

  /** What `convertLockName` returns or throws. */
  function ConvertSpec(c: CoreConverter, raw: string, args: seq<Arg>, ctx: RequestContext): Result<string, DistributedLockException> {
    match PreparedName(c, raw, args, ctx)
    case None => Err(PreConvertFailure())
    case Some(s) =>
      match FillFrom(s, s, 0, Bind(args))
      case None => Err(ConvertFailure())
      case Some(name) => Ok(name)
  }

  /** The `for` loop that fills `paramMap` and `tempObj`. */
  method BuildBindings(args: seq<Arg>) returns (b: Bindings)
    ensures b == Bind(args)
  {
    var params: map<string, Value> := map[];
    var last := Null;
    for i := 0 to |args|
      invariant Bindings(params, last) == Bind(args[..i])
    {
      assert args[..i + 1][..i] == args[..i];
      if !Excluded(args[i]) {
        params := params[args[i].name := args[i].value];
        last := args[i].value;
      }
    }
    assert args[..|args|] == args;
    return Bindings(params, last);
  }

  /** The text one placeholder's field is replaced by, walking a dotted path with a `for` loop. */
  method FieldText(field: string, b: Bindings) returns (r: Option<string>)
    ensures r == TokenText(field, b)
  {
    var paramMap := b.params;
    var tempObj := b.last;
    if '.' !in field {
      if field in paramMap {
        return ValueOf(paramMap[field]);
      } else if |paramMap| == 1 {
        var o := if tempObj.Null? then Null else GetFieldValue(tempObj, field);
        return ValueOf(o);
      } else {
        return Some("null");
      }
    }
    var split := SplitDot(field);
    if |split| == 0 {
      return None;
    }
    var o := Lookup(paramMap, split[0]);
    for i := 1 to |split|
      invariant Walk(o, split[i..]) == Walk(Lookup(paramMap, split[0]), split[1..])
    {
      if o.Null? {
        break;
      }
      o := GetFieldValue(o, split[i]);
    }
    return ValueOf(o);
  }

  /**
   * One turn of the `while (matcher.find())` loop: the parameter map is built if this is the first
   * match, then the group of match `m` is replaced, in the current name, by the text of its field;
   * None when that throws.
   */
  method ReplaceOne(lockName: string, subject: string, from: nat, m: Match, args: seq<Arg>, bound: Option<Bindings>)
    returns (r: Option<string>, bound': Option<Bindings>)
    requires FindFrom(subject, from) == Some(m)
    requires bound.Some? ==> bound.value == Bind(args)
    ensures from < m.close + 1 <= |subject|
    ensures bound' == Some(Bind(args))
    ensures r.None? ==> FillFrom(lockName, subject, from, Bind(args)).None?
    ensures r.Some? ==> FillFrom(lockName, subject, from, Bind(args)) == FillFrom(r.value, subject, m.close + 1, Bind(args))
  {
    bound' := bound;
    if bound'.None? {
      var b := BuildBindings(args);
      bound' := Some(b);
    }
    var group := Text(subject, m);
    var field := Field(subject, m);
    var fieldValue := FieldText(field, bound'.value);
    if fieldValue.None? {
      FillStepFails(lockName, subject, from, m, Bind(args));
      return None, bound';
    }
    FillStep(lockName, subject, from, m, Bind(args), fieldValue.value);
    r := Some(ReplaceAll(lockName, group, fieldValue.value));
  }

  /**
   * The `while (matcher.find())` loop of `convertLockName`: the matcher runs over `subject`, the
   * prefixed name as it stood before any substitution, while each replacement applies to the
   * current name; the parameter map is built on the first match only. None when a placeholder
   * throws.
   */
  method ReplacePlaceholders(subject: string, args: seq<Arg>) returns (r: Option<string>)
    ensures r == FillFrom(subject, subject, 0, Bind(args))
  {
    ghost var b := Bind(args);
    ghost var goal := FillFrom(subject, subject, 0, b);
    var lockName := subject;
    var bound: Option<Bindings> := None;
    var from := 0;
    var found := FindFrom(subject, from);
    while found.Some?
      invariant from <= |subject|
      invariant found == FindFrom(subject, from)
      invariant bound.Some? ==> bound.value == b
      invariant FillFrom(lockName, subject, from, b) == goal
      decreases |subject| - from
    {
      var m := found.value;
      var next;
      next, bound := ReplaceOne(lockName, subject, from, m, args, bound);
      if next.None? {
        return None;
      }
      lockName := next.value;
      from := m.close + 1;
      found := FindFrom(subject, from);
    }
    FillDone(lockName, subject, from, b);
    return Some(lockName);
  }

  /** `convertLockName`: pre-convert, prefix, substitute; every failure is status 2. */
  method ConvertLockName(c: CoreConverter, raw: string, args: seq<Arg>, ctx: RequestContext)
    returns (r: Result<string, DistributedLockException>)
    ensures r == ConvertSpec(c, raw, args, ctx)
  {
    var pre := PreConvert(c.pre, raw, args, ctx);
    if !pre.Returned? {
      return Err(PreConvertFailure());
    }
    var lockName := pre.name;
    if !IsBlank(c.prefix) {
      lockName := c.prefix + lockName;
    }
    var filled := ReplacePlaceholders(lockName, args);
    if filled.None? {
      return Err(ConvertFailure());
    }
    return Ok(filled.value);
  }

  // ---------------------------------------------------------------- properties

  /**
   * Conversion fails, always with status 2, exactly when the pre-converter throws or returns null,
   * or evaluating a placeholder of the prefixed name throws: its field is dots only, or its value's
   * `toString()` throws or gives null.
   */
  lemma ConvertFailsIff(c: CoreConverter, raw: string, args: seq<Arg>, ctx: RequestContext)
    ensures ConvertSpec(c, raw, args, ctx).Err? ==> ConvertSpec(c, raw, args, ctx).error.status == NAME_CONVERSION
    ensures ConvertSpec(c, raw, args, ctx).Err?
            <==> || !PreConvert(c.pre, raw, args, ctx).Returned?
                 || var s := PreparedName(c, raw, args, ctx).value;
                    exists i :: 0 <= i < |Matches(s)| && Throws(Field(s, Matches(s)[i]), Bind(args))
  {
    var p := PreparedName(c, raw, args, ctx);
    if p.Some? {
      FillFailsIff(p.value, p.value, Matches(p.value), Bind(args));
    }
  }

  /** A name in which the pattern finds nothing comes out as the pre-converted name behind the prefix. */
  lemma NoMatchConvert(c: CoreConverter, raw: string, args: seq<Arg>, ctx: RequestContext, name: string)
    requires PreConvert(c.pre, raw, args, ctx) == Returned(name)
    requires Matches(Prefixed(c.prefix, name)) == []
    ensures ConvertSpec(c, raw, args, ctx) == Ok(if IsBlank(c.prefix) then name else c.prefix + name)
  {
  }

  /**
   * In particular a name in which no `{` has a `}` after it on its line (a name with no `{`, or
   * no `}`, among them) has nothing to substitute.
   */
  lemma NoPlaceholderConvert(c: CoreConverter, raw: string, args: seq<Arg>, ctx: RequestContext, name: string)
    requires PreConvert(c.pre, raw, args, ctx) == Returned(name)
    requires var s := Prefixed(c.prefix, name);
             forall p :: 0 <= p < |s| && s[p] == '{' ==> CloseFrom(s, p + 1).None?
    ensures ConvertSpec(c, raw, args, ctx) == Ok(if IsBlank(c.prefix) then name else c.prefix + name)
  {
    NoTerminatedBraceNoMatch(Prefixed(c.prefix, name));
    NoMatchConvert(c, raw, args, ctx, name);
  }

  /**
   * Under the default pre-converter, a `{@userId}` whose request attribute is not a `Long` makes
   * the cast throw, and the conversion fails with status 2.
   */
  lemma NonLongUserIdFails(prefix: string, raw: string, args: seq<Arg>, request: Request, text: string)
    requires Contains(raw, USER_ID_MATCH) && request.userId == Some(OtherAttribute(text))
    ensures ConvertSpec(CoreConverter(prefix, DefaultPreConverter), raw, args, ServletRequest(request)) == Err(PreConvertFailure())
    ensures PreConvertFailure().status == NAME_CONVERSION
  {
  }
}
