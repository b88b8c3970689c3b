/** Edge guards: every (path, value) entry must match the projected context. */
module FlowGuard {
  import opened Prelude
  import opened Decimal
  import opened FlowDsl

  /** The pieces of `s` between occurrences of `sep`; never empty. */
  function Split(s: string, sep: char): (parts: seq<string>)
    ensures |parts| > 0
  {
    if s == [] then [[]]
    else if s[0] == sep then [[]] + Split(s[1..], sep)
    else
      var rest := Split(s[1..], sep);
      [[s[0]] + rest[0]] + rest[1..]
  }

  /** `Value::get` with a string key: only objects have string keys. */
  function Field(value: Json, key: string): Option<Json> {
    if value.JObject? && key in value.fields then Some(value.fields[key]) else None
  }

  /** The value at the end of a path of keys. */
  function Descend(value: Json, keys: seq<string>): Option<Json> {
    if keys == [] then Some(value)
    else
      match Field(value, keys[0])
      case Some(inner) => Descend(inner, keys[1..])
      case None => None
  }

  function OptionalString(s: Option<string>): Json {
    if s.Some? then JString(s.value) else JNull
  }

  /** The JSON view of a context that guards see. The client id is not part of it. */
  function Project(ctx: FlowContext): Json {
    JObject(map["context" := JObject(map[
      "username" := OptionalString(ctx.username),
      "user_id" := OptionalString(ctx.userId),
      "amr" := JArray(seq(|ctx.amr|, i requires 0 <= i < |ctx.amr| => JString(ctx.amr[i]))),
      "authn_level" := JNumber(ctx.authnLevel as int),
      "requested_acr" := OptionalString(ctx.requestedAcr),
      "session_id" := OptionalString(ctx.sessionId),
      "locals" := JObject(ctx.locals)
    ])])
  }

  /** Equality with string-number and string-boolean coercion in both directions. */
  predicate JsonEquals(actual: Json, expected: Json) {
    || actual == expected
    || match (actual, expected)
       case (JNumber(a), JString(b)) => PrintInt(a) == b
       case (JString(b), JNumber(a)) => PrintInt(a) == b
       case (JBool(a), JString(b)) => b == (if a then "true" else "false")
       case (JString(b), JBool(a)) => b == (if a then "true" else "false")
       case _ => false
  }

  predicate EntryHolds(path: string, expected: Json, view: Json) {
    match Descend(view, Split(path, '.'))
    case Some(actual) => JsonEquals(actual, expected)
    case None => false
  }

  predicate EvalGuard(guard: map<string, Json>, ctx: FlowContext) {
    guard == map[] || forall path :: path in guard ==> EntryHolds(path, guard[path], Project(ctx))
  }

  /** The cursor loop over the path's segments computes `Descend`. */
  method ResolvePath(value: Json, path: string) returns (r: Option<Json>)
    ensures r == Descend(value, Split(path, '.'))
  {
    var cursor := value;
    var segments := Split(path, '.');
    for i := 0 to |segments|
      invariant Descend(cursor, segments[i..]) == Descend(value, segments)
    {
      assert segments[i..][0] == segments[i] && segments[i..][1..] == segments[i + 1..];
      match Field(cursor, segments[i]) {
        case None => return None;
        case Some(inner) => cursor := inner;
      }
    }
    r := Some(cursor);
  }

  lemma {:induction false} SplitWithoutSeparator(s: string, sep: char)
    requires sep !in s
    ensures Split(s, sep) == [s]
  {
    if s == [] {
    } else {
      SplitWithoutSeparator(s[1..], sep);
      assert s == [s[0]] + s[1..];
    }
  }

  lemma {:induction false} SplitAtFirst(head: string, sep: char, tail: string)
    requires sep !in head
    ensures Split(head + [sep] + tail, sep) == [head] + Split(tail, sep)
  {
    var s := head + [sep] + tail;
    if head == [] {
      assert s[1..] == tail;
    } else {
      assert s[1..] == head[1..] + [sep] + tail;
      SplitAtFirst(head[1..], sep, tail);
      assert head == [head[0]] + head[1..];
    }
  }

  // ---- Guards in general ----

  /** A guard passes exactly if each of its entries would on its own. */
  lemma GuardIsConjunction(guard: map<string, Json>, ctx: FlowContext)
    ensures EvalGuard(guard, ctx) <==> forall path :: path in guard ==> EvalGuard(map[path := guard[path]], ctx)
  {
    hide EntryHolds;
    forall path | path in guard
      ensures EvalGuard(map[path := guard[path]], ctx) <==> EntryHolds(path, guard[path], Project(ctx))
    {
      OneEntry(path, guard[path], ctx);
    }
  }

  lemma OneEntry(path: string, expected: Json, ctx: FlowContext)
    ensures EvalGuard(map[path := expected], ctx) <==> EntryHolds(path, expected, Project(ctx))
  {
    hide EntryHolds, Project;
    var guard := map[path := expected];
    assert path in guard && guard != map[];
  }

  /** The text a scalar can be written as in a guard. */
  function Text(v: Json): Option<string> {
    match v
    case JString(s) => Some(s)
    case JNumber(n) => Some(PrintInt(n))
    case JBool(b) => Some(if b then "true" else "false")
    case _ => None
  }

  /** Values match if they are equal, or if one is a string and spells the other, a number or a boolean. */
  lemma JsonEqualsExact(a: Json, b: Json)
    ensures JsonEquals(a, b) <==> a == b || ((a.JString? <==> !b.JString?) && Text(a).Some? && Text(a) == Text(b))
  {
  }

  /** A string matches at most one integer. */
  lemma OneNumberPerString(s: string, a: int, b: int)
    requires JsonEquals(JString(s), JNumber(a)) && JsonEquals(JString(s), JNumber(b))
    ensures a == b
  {
    PrintIntInjective(a, b);
  }

  /** A path that does not begin with `context` never passes. */
  lemma OutsidePathFails(path: string, expected: Json, ctx: FlowContext)
    requires Split(path, '.')[0] != "context"
    ensures !EvalGuard(map[path := expected], ctx)
  {
    OneEntry(path, expected, ctx);
  }

  /** What a guard on `context.<key>` is compared with; an absent string is null. */
  function ContextField(ctx: FlowContext, key: string): Option<Json> {
    if key == "username" then Some(OptionalString(ctx.username))
    else if key == "user_id" then Some(OptionalString(ctx.userId))
    else if key == "authn_level" then Some(JNumber(ctx.authnLevel as int))
    else if key == "requested_acr" then Some(OptionalString(ctx.requestedAcr))
    else if key == "session_id" then Some(OptionalString(ctx.sessionId))
    else if key == "locals" then Some(JObject(ctx.locals))
    else if key == "amr" then Some(JArray(seq(|ctx.amr|, i requires 0 <= i < |ctx.amr| => JString(ctx.amr[i]))))
    else None
  }

  lemma ProjectFields(ctx: FlowContext, key: string)
    ensures Project(ctx).JObject? && Project(ctx).fields.Keys == {"context"}
    ensures Field(Project(ctx), "context") == Some(Project(ctx).fields["context"])
    ensures Field(Project(ctx).fields["context"], key) == ContextField(ctx, key)
  {
  }

  lemma DescendOne(v: Json, key: string, rest: seq<string>)
    ensures Descend(v, [key]) == Field(v, key)
    ensures Field(v, key).Some? ==> Descend(v, [key] + rest) == Descend(Field(v, key).value, rest)
  {
    assert ([key] + rest)[1..] == rest && [key][1..] == [];
  }

  /** A guard on `context.<key>` passes exactly if the context has that field and it matches. */
  lemma ContextGuardExact(key: string, expected: Json, ctx: FlowContext)
    requires '.' !in key
    ensures EvalGuard(map["context." + key := expected], ctx)
            <==> ContextField(ctx, key).Some? && JsonEquals(ContextField(ctx, key).value, expected)
  {
    hide JsonEquals, Project, ContextField, Descend, Field;
    var path := "context." + key;
    assert path == "context" + ['.'] + key;
    SplitAtFirst("context", '.', key);
    SplitWithoutSeparator(key, '.');
    OneEntry(path, expected, ctx);
    ProjectFields(ctx, key);
    DescendOne(Project(ctx), "context", [key]);
    DescendOne(Project(ctx).fields["context"], key, []);
  }

  /**
   A guard on `context.locals.<key>` passes exactly when that local is present and
   equal, up to coercion, to the expected value.
   */
  lemma LocalGuardExact(key: string, expected: Json, ctx: FlowContext)
    requires '.' !in key
    ensures EvalGuard(map["context.locals." + key := expected], ctx)
            <==> key in ctx.locals && JsonEquals(ctx.locals[key], expected)
  {
    hide JsonEquals, Project, Descend;
    var path := "context.locals." + key;
    assert path == "context" + ['.'] + ("locals" + ['.'] + key);
    SplitAtFirst("context", '.', "locals" + ['.'] + key);
    SplitAtFirst("locals", '.', key);
    SplitWithoutSeparator(key, '.');
    OneEntry(path, expected, ctx);
    ProjectFields(ctx, "locals");
    DescendOne(Project(ctx), "context", ["locals"] + [key]);
    DescendOne(Project(ctx).fields["context"], "locals", [key]);
    DescendOne(JObject(ctx.locals), key, []);
  }
}
