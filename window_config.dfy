/**
 * The window configurer of the application: the whitelist filter that
 * projects stored window settings onto a template, the object spreads that
 * merge settings, the fallback to default settings, and the guards in front
 * of the window's position and size setters.
 */
module WindowConfig {
  import opened Wrappers
  import Text

  /** A JavaScript value as JSON can describe it (numbers restricted to integers). */
  datatype Json = Undefined | Null | Bool(b: bool) | Num(n: int) | Str(s: string) | Arr(elems: seq<Json>) | Obj(members: seq<Member>)
  datatype Member = Member(key: string, value: Json)

  /** JavaScript truthiness: `undefined`, `null`, `false`, `0` and `""` are falsy. */
  predicate Truthy(v: Json)
  {
    match v
    case Undefined => false
    case Null => false
    case Bool(b) => b
    case Num(n) => n != 0
    case Str(s) => s != []
    case _ => true
  }

  /** `typeof v === 'object'`, which also holds for `null`. */
  predicate TypeofObject(v: Json)
  {
    v.Null? || v.Arr? || v.Obj?
  }

  predicate Nullish(v: Json)
  {
    v.Undefined? || v.Null?
  }

  function Size(v: Json): nat
  {
    match v
    case Arr(es) => 1 + ElemsSize(es)
    case Obj(ms) => 1 + MembersSize(ms)
    case _ => 1
  }

  function ElemsSize(es: seq<Json>): nat
  {
    if es == [] then 0 else Size(es[0]) + ElemsSize(es[1..])
  }

  function MembersSize(ms: seq<Member>): nat
  {
    if ms == [] then 0 else Size(ms[0].value) + MembersSize(ms[1..])
  }

  predicate Distinct(keys: seq<string>)
  {
    forall i, j :: 0 <= i < j < |keys| ==> keys[i] != keys[j]
  }

  /** Each key once, at its first occurrence: the key order of an object that had a key assigned twice. */
  function Dedup(keys: seq<string>): (r: seq<string>)
    ensures Distinct(r)
    ensures forall k :: k in r <==> k in keys
  {
    if keys == [] then []
    else
      var front := Dedup(keys[..|keys| - 1]);
      assert forall k :: k in keys <==> k in keys[..|keys| - 1] || k == keys[|keys| - 1];
      if keys[|keys| - 1] in front then front else front + [keys[|keys| - 1]]
  }

  lemma {:induction false} DedupOfDistinct(keys: seq<string>)
    requires Distinct(keys)
    ensures Dedup(keys) == keys
  {
    if keys != [] {
      var front := keys[..|keys| - 1];
      DedupOfDistinct(front);
      assert keys[|keys| - 1] !in front by {
        forall i | 0 <= i < |front| ensures front[i] != keys[|keys| - 1] { }
      }
      assert keys == front + [keys[|keys| - 1]];
    }
  }

  function MemberKeys(ms: seq<Member>): (keys: seq<string>)
    ensures |keys| == |ms|
    ensures forall i :: 0 <= i < |ms| ==> keys[i] == ms[i].key
  {
    if ms == [] then [] else [ms[0].key] + MemberKeys(ms[1..])
  }

  /** The index keys `"0"`, `"1"`, … of an array or string of length `n`. */
  function IndexKeys(n: nat): (keys: seq<string>)
    ensures |keys| == n
    ensures Distinct(keys)
  {
    var keys := seq(n, i requires 0 <= i => Text.NatToString(i));
    assert Distinct(keys) by {
      forall i, j | 0 <= i < j < n ensures keys[i] != keys[j] {
        if keys[i] == keys[j] { Text.NatToStringInjective(i, j); }
      }
    }
    keys
  }

  /** The keys `for (key in v)` enumerates, in order (own properties only). */
  function Keys(v: Json): (keys: seq<string>)
    ensures Distinct(keys)
  {
    match v
    case Obj(ms) => Dedup(MemberKeys(ms))
    case Arr(es) => IndexKeys(|es|)
    case Str(s) => IndexKeys(|s|)
    case _ => []
  }

  /** The value of the last member named `key`: the one a repeated key keeps. */
  function LastValue(ms: seq<Member>, key: string): (r: Option<Json>)
    ensures r.Some? ==> Size(r.value) <= MembersSize(ms)
    ensures r.Some? <==> key in MemberKeys(ms)
  {
    if ms == [] then None
    else
      var later := LastValue(ms[1..], key);
      assert MemberKeys(ms) == [ms[0].key] + MemberKeys(ms[1..]);
      if later.Some? then later else if ms[0].key == key then Some(ms[0].value) else None
  }

  function ElemAt(es: seq<Json>, key: string, i: nat): (r: Option<Json>)
    requires i <= |es|
    ensures r.Some? ==> Size(r.value) < 1 + ElemsSize(es)
    decreases |es| - i
  {
    if i == |es| then None
    else if Text.NatToString(i) == key then
      ElemSmaller(es, i);
      Some(es[i])
    else ElemAt(es, key, i + 1)
  }

  lemma {:induction false} ElemSmaller(es: seq<Json>, i: nat)
    requires i < |es|
    ensures Size(es[i]) <= ElemsSize(es)
  {
    if i > 0 {
      ElemSmaller(es[1..], i - 1);
    }
  }

  function CharAt(s: string, key: string, i: nat): Option<char>
    requires i <= |s|
    decreases |s| - i
  {
    if i == |s| then None
    else if Text.NatToString(i) == key then Some(s[i])
    else CharAt(s, key, i + 1)
  }

  /** `v[key]` (own properties and `length`; nothing inherited). */
  function Prop(v: Json, key: string): (r: Json)
    ensures TypeofObject(r) && !r.Null? ==> Size(r) < Size(v)
  {
    match v
    case Obj(ms) => LastValue(ms, key).GetOr(Undefined)
    case Arr(es) => if key == "length" then Num(|es|) else ElemAt(es, key, 0).GetOr(Undefined)
    case Str(s) =>
      if key == "length" then Num(|s|)
      else (match CharAt(s, key, 0) case None => Undefined case Some(c) => Str([c]))
    case _ => Undefined
  }

  /** In an object whose keys are distinct, each member is what its key reads. */
  lemma {:induction false} PropOfMember(ms: seq<Member>, i: nat)
    requires i < |ms| && Distinct(MemberKeys(ms))
    ensures Prop(Obj(ms), ms[i].key) == ms[i].value
  {
    if i == 0 {
      assert ms[0].key !in MemberKeys(ms[1..]) by {
        forall j | 0 <= j < |ms[1..]| ensures MemberKeys(ms[1..])[j] != ms[0].key {
          assert MemberKeys(ms)[j + 1] == ms[1..][j].key;
        }
      }
    } else {
      assert Distinct(MemberKeys(ms[1..])) by {
        forall a, b | 0 <= a < b < |ms[1..]| ensures MemberKeys(ms[1..])[a] != MemberKeys(ms[1..])[b] {
          assert MemberKeys(ms)[a + 1] == ms[1..][a].key && MemberKeys(ms)[b + 1] == ms[1..][b].key;
        }
      }
      PropOfMember(ms[1..], i - 1);
    }
  }

  /** Keep `value` when it is falsy or not an object; otherwise project it onto the template's entry. */
  predicate CopiedAsIs(value: Json)
  {
    !Truthy(value) || !TypeofObject(value)
  }

  /** The object `fromTemplate(template, values)` builds once `values` can be read. */
  function Project(template: Json, values: Json): (r: Json)
    decreases Size(values), 1
  {
    Obj(ProjectMembers(template, Keys(template), values))
  }

  function ProjectMembers(template: Json, keys: seq<string>, values: Json): (ms: seq<Member>)
    ensures MemberKeys(ms) == keys
    decreases Size(values), 0, |keys|
  {
    if keys == [] then []
    else
      var value := Prop(values, keys[0]);
      [Member(keys[0], if CopiedAsIs(value) then value else Project(Prop(template, keys[0]), value))]
        + ProjectMembers(template, keys[1..], values)
  }

  /** `fromTemplate(template, values)`: `None` for the `TypeError` of reading a property of `null` or `undefined`. */
  function FromTemplate(template: Json, values: Json): (r: Option<Json>)
    ensures r == None <==> Nullish(values) && Keys(template) != []
    ensures r.Some? ==> r.value.Obj?
  {
    if Nullish(values) && Keys(template) != [] then None else Some(Project(template, values))
  }

  /** What `fromTemplate` stores under a template key. */
  function Projected(template: Json, values: Json, key: string): Json
  {
    var value := Prop(values, key);
    if CopiedAsIs(value) then value else Project(Prop(template, key), value)
  }

  lemma {:induction false} ProjectMembersAt(template: Json, keys: seq<string>, values: Json, i: nat)
    requires i < |keys|
    ensures ProjectMembers(template, keys, values)[i] == Member(keys[i], Projected(template, values, keys[i]))
  {
    if i > 0 { ProjectMembersAt(template, keys[1..], values, i - 1); }
  }

  lemma ProjectMembersRead(template: Json, keys: seq<string>, values: Json, i: nat)
    requires Distinct(keys) && i < |keys|
    ensures Prop(Obj(ProjectMembers(template, keys, values)), keys[i]) == Projected(template, values, keys[i])
  {
    ProjectMembersAt(template, keys, values, i);
    PropOfMember(ProjectMembers(template, keys, values), i);
  }

  /** The projection has exactly the template's keys, in the template's order. */
  lemma ProjectKeys(template: Json, values: Json)
    ensures Keys(Project(template, values)) == Keys(template)
  {
    var keys := Keys(template);
    assert MemberKeys(Project(template, values).members) == keys;
    DedupOfDistinct(keys);
  }

  /**
   * The projection has exactly the template's keys, in the template's order;
   * a key of the template holds the value copied or projected, and every
   * other key reads as `undefined`.
   */
  lemma ProjectShape(template: Json, values: Json, key: string)
    ensures Keys(Project(template, values)) == Keys(template)
    ensures key in Keys(template) ==> Prop(Project(template, values), key) == Projected(template, values, key)
    ensures key !in Keys(template) ==> Prop(Project(template, values), key) == Undefined
  {
    var keys := Keys(template);
    ProjectKeys(template, values);
    if key in keys {
      var i :| 0 <= i < |keys| && keys[i] == key;
      ProjectMembersRead(template, keys, values, i);
    } else {
      assert key !in MemberKeys(Project(template, values).members);
    }
  }

  /** Projecting what was already projected onto the same template changes nothing. */
  lemma ProjectIdempotent(template: Json, values: Json)
    ensures Project(template, Project(template, values)) == Project(template, values)
    decreases Size(values), 1
  {
    ProjectMembersIdempotent(template, Keys(template), values);
  }

  lemma {:induction false} ProjectMembersIdempotent(template: Json, keys: seq<string>, values: Json)
    requires forall k :: k in keys ==> k in Keys(template)
    ensures ProjectMembers(template, keys, Project(template, values)) == ProjectMembers(template, keys, values)
    decreases Size(values), 0, |keys|
  {
    if keys != [] {
      ProjectedIdempotent(template, values, keys[0]);
      ProjectMembersIdempotent(template, keys[1..], values);
    }
  }

  /** A template key reads the same from the projection projected again. */
  lemma ProjectedIdempotent(template: Json, values: Json, key: string)
    requires key in Keys(template)
    ensures Projected(template, Project(template, values), key) == Projected(template, values, key)
    decreases Size(values), 0, 0
  {
    ProjectShape(template, values, key);
    var value := Prop(values, key);
    if !CopiedAsIs(value) {
      ProjectIdempotent(Prop(template, key), value);
    }
  }

  /** `fromTemplate` is idempotent: filtering filtered settings gives them back. */
  lemma FromTemplateIdempotent(template: Json, values: Json)
    requires FromTemplate(template, values).Some?
    ensures FromTemplate(template, FromTemplate(template, values).value) == FromTemplate(template, values)
  {
    ProjectIdempotent(template, values);
  }

  /** `SECURITY_FILTER`: the only settings that may reach a window. */
  const SECURITY_FILTER := Obj([Member("x", Num(0)), Member("y", Num(0)), Member("width", Num(0)), Member("height", Num(0))])

  const SECURITY_KEYS := ["x", "y", "width", "height"]

  /** A setting after the flat filter: a primitive is kept, an object becomes `{}`. */
  function Flattened(value: Json): Json
  {
    if CopiedAsIs(value) then value else Obj([])
  }

  lemma SecurityKeys()
    ensures Keys(SECURITY_FILTER) == SECURITY_KEYS
  {
    assert MemberKeys(SECURITY_FILTER.members) == SECURITY_KEYS;
    DedupOfDistinct(SECURITY_KEYS);
  }

  /** Under a template entry without keys, an object setting becomes `{}` and anything else is kept. */
  lemma KeylessEntry(template: Json, values: Json, key: string)
    requires Keys(Prop(template, key)) == []
    ensures Projected(template, values, key) == Flattened(Prop(values, key))
  {
  }

  /** In an object whose members all hold `v`, every key it has reads `v`. */
  lemma {:induction false} UniformRead(ms: seq<Member>, key: string, v: Json)
    requires forall i :: 0 <= i < |ms| ==> ms[i].value == v
    requires key in MemberKeys(ms)
    ensures LastValue(ms, key) == Some(v)
  {
    assert MemberKeys(ms) == [ms[0].key] + MemberKeys(ms[1..]);
    if key in MemberKeys(ms[1..]) {
      assert forall i :: 0 <= i < |ms[1..]| ==> ms[1..][i].value == v by {
        forall i | 0 <= i < |ms[1..]| ensures ms[1..][i].value == v { assert ms[1..][i] == ms[i + 1]; }
      }
      UniformRead(ms[1..], key, v);
    }
  }

  /** A key of the security filter keeps a primitive setting and flattens an object one. */
  lemma SecurityEntry(values: Json, key: string)
    requires key in SECURITY_KEYS
    ensures Projected(SECURITY_FILTER, values, key) == Flattened(Prop(values, key))
  {
    assert MemberKeys(SECURITY_FILTER.members) == SECURITY_KEYS;
    UniformRead(SECURITY_FILTER.members, key, Num(0));
    KeylessEntry(SECURITY_FILTER, values, key);
  }

  /**
   * Through the security filter only `x`, `y`, `width` and `height` survive,
   * in that order, each as loaded when it is not an object and as an empty
   * object when it is; settings that are `null` or `undefined` make the
   * filter throw.
   */
  lemma SecurityFilterShape(values: Json, key: string)
    ensures FromTemplate(SECURITY_FILTER, values) == None <==> Nullish(values)
    ensures !Nullish(values) ==> Keys(FromTemplate(SECURITY_FILTER, values).value) == ["x", "y", "width", "height"]
    ensures !Nullish(values) ==>
      Prop(FromTemplate(SECURITY_FILTER, values).value, key) == (if key in SECURITY_KEYS then Flattened(Prop(values, key)) else Undefined)
  {
    SecurityKeys();
    ProjectShape(SECURITY_FILTER, values, key);
    if key in SECURITY_KEYS {
      SecurityEntry(values, key);
    }
  }

  /** `{...a, ...b}`: the keys of `a` in order, then the new keys of `b`; `b` wins a shared key. */
  function Spread(a: Json, b: Json): Json
  {
    Obj(SpreadMembers(a, Keys(a), b) + SpreadMembers(Undefined, NewKeys(Keys(b), Keys(a)), b))
  }

  function SpreadMembers(a: Json, keys: seq<string>, b: Json): (ms: seq<Member>)
    ensures MemberKeys(ms) == keys
  {
    if keys == [] then []
    else [Member(keys[0], if keys[0] in Keys(b) then Prop(b, keys[0]) else Prop(a, keys[0]))] + SpreadMembers(a, keys[1..], b)
  }

  function NewKeys(keys: seq<string>, seen: seq<string>): (r: seq<string>)
    ensures forall k :: k in r <==> k in keys && k !in seen
    ensures Distinct(keys) ==> Distinct(r)
  {
    if keys == [] then []
    else
      assert forall k :: k in keys[1..] ==> k in keys;
      (if keys[0] in seen then [] else [keys[0]]) + NewKeys(keys[1..], seen)
  }

  lemma {:induction false} SpreadMembersRead(a: Json, keys: seq<string>, b: Json, i: nat)
    requires i < |keys|
    ensures SpreadMembers(a, keys, b)[i] == Member(keys[i], if keys[i] in Keys(b) then Prop(b, keys[i]) else Prop(a, keys[i]))
  {
    var ms := SpreadMembers(a, keys, b);
    var rest := SpreadMembers(a, keys[1..], b);
    assert ms == [ms[0]] + rest;
    if i > 0 {
      SpreadMembersRead(a, keys[1..], b, i - 1);
      assert ms[i] == rest[i - 1];
    }
  }

  lemma {:induction false} MemberKeysAppend(front: seq<Member>, back: seq<Member>)
    ensures MemberKeys(front + back) == MemberKeys(front) + MemberKeys(back)
  {
    if front == [] {
      assert front + back == back;
    } else {
      assert (front + back)[1..] == front[1..] + back;
      MemberKeysAppend(front[1..], back);
      assert MemberKeys(front + back) == [front[0].key] + (MemberKeys(front[1..]) + MemberKeys(back));
    }
  }

  lemma DistinctAppend(keys: seq<string>, added: seq<string>)
    requires Distinct(keys) && Distinct(added) && forall k :: k in added ==> k !in keys
    ensures Distinct(keys + added)
  {
    forall i, j | 0 <= i < j < |keys + added| ensures (keys + added)[i] != (keys + added)[j] {
      if j >= |keys| && i < |keys| {
        assert (keys + added)[j] in added;
        assert (keys + added)[i] in keys;
      } else if i >= |keys| {
        assert (keys + added)[i] == added[i - |keys|] && (keys + added)[j] == added[j - |keys|];
      }
    }
  }

  /** The members of `{...a, ...b}` carry distinct keys: those of `a`, then the new ones of `b`. */
  lemma SpreadKeys(a: Json, b: Json)
    ensures MemberKeys(Spread(a, b).members) == Keys(a) + NewKeys(Keys(b), Keys(a))
    ensures Distinct(MemberKeys(Spread(a, b).members))
  {
    var added := NewKeys(Keys(b), Keys(a));
    MemberKeysAppend(SpreadMembers(a, Keys(a), b), SpreadMembers(Undefined, added, b));
    DistinctAppend(Keys(a), added);
  }

  lemma SpreadReadFront(a: Json, b: Json, i: nat)
    requires i < |Keys(a)|
    ensures Prop(Spread(a, b), Keys(a)[i]) == if Keys(a)[i] in Keys(b) then Prop(b, Keys(a)[i]) else Prop(a, Keys(a)[i])
  {
    var front := SpreadMembers(a, Keys(a), b);
    var ms := Spread(a, b).members;
    SpreadKeys(a, b);
    SpreadMembersRead(a, Keys(a), b, i);
    assert ms[i] == front[i];
    PropOfMember(ms, i);
  }

  lemma SpreadReadBack(a: Json, b: Json, i: nat)
    requires i < |NewKeys(Keys(b), Keys(a))|
    ensures Prop(Spread(a, b), NewKeys(Keys(b), Keys(a))[i]) == Prop(b, NewKeys(Keys(b), Keys(a))[i])
  {
    var front := SpreadMembers(a, Keys(a), b);
    var added := NewKeys(Keys(b), Keys(a));
    var back := SpreadMembers(Undefined, added, b);
    var ms := Spread(a, b).members;
    SpreadKeys(a, b);
    SpreadMembersRead(Undefined, added, b, i);
    assert added[i] in Keys(b);
    assert ms[|front| + i] == back[i];
    PropOfMember(ms, |front| + i);
  }

  /** A key read from a spread comes from the second object when it has the key, else from the first. */
  lemma SpreadRead(a: Json, b: Json, key: string)
    ensures Prop(Spread(a, b), key) ==
      if key in Keys(b) then Prop(b, key) else if key in Keys(a) then Prop(a, key) else Undefined
  {
    var added := NewKeys(Keys(b), Keys(a));
    if key in Keys(a) {
      var i :| 0 <= i < |Keys(a)| && Keys(a)[i] == key;
      SpreadReadFront(a, b, i);
    } else if key in Keys(b) {
      var i :| 0 <= i < |added| && added[i] == key;
      SpreadReadBack(a, b, i);
    } else {
      SpreadKeys(a, b);
      assert key !in MemberKeys(Spread(a, b).members);
    }
  }

  /** The contents of a settings file: unreadable, not JSON, or a parsed value. */
  datatype SettingsFile = Unreadable | Unparsable | Parsed(content: Json)

  /**
   * How the promise of `loadSettings` ends: rejected on a read error; never
   * settled when parsing or filtering throws inside the read callback.
   */
  datatype LoadResult = Rejected | Resolved(settings: Json) | Unsettled

  /** `loadSettings`, with the file read by the caller. */
  function LoadSettings(filter: Json, file: SettingsFile): (r: LoadResult)
    ensures r.Rejected? <==> file.Unreadable?
    ensures r.Resolved? <==> file.Parsed? && FromTemplate(filter, file.content).Some?
    ensures r.Resolved? ==> Some(r.settings) == FromTemplate(filter, file.content)
  {
    match file
    case Unreadable => Rejected
    case Unparsable => Unsettled
    case Parsed(content) =>
      match FromTemplate(filter, content)
      case None => Unsettled
      case Some(settings) => Resolved(settings)
  }

  /** The settings `create` configures the window with; `None` when they never arrive. */
  function EffectiveSettings(filter: Json, file: SettingsFile, defaults: Json, additional: Json): Option<Json>
  {
    match LoadSettings(filter, file)
    case Rejected => Some(Spread(defaults, additional))
    case Resolved(settings) => Some(Spread(settings, additional))
    case Unsettled => None
  }

  /**
   * An unreadable file falls back to the defaults; every additional setting
   * overrides what was loaded or defaulted.
   */
  lemma SettingsFallBackAndOverride(filter: Json, file: SettingsFile, defaults: Json, additional: Json, key: string)
    ensures file.Unreadable? ==> EffectiveSettings(filter, file, defaults, additional) == Some(Spread(defaults, additional))
    ensures EffectiveSettings(filter, file, defaults, additional).Some? <==> LoadSettings(filter, file) != Unsettled
    ensures EffectiveSettings(filter, file, defaults, additional).Some? && key in Keys(additional) ==>
      Prop(EffectiveSettings(filter, file, defaults, additional).value, key) == Prop(additional, key)
  {
    match LoadSettings(filter, file)
    case Rejected => SpreadRead(defaults, additional, key);
    case Resolved(settings) => SpreadRead(settings, additional, key);
    case Unsettled =>
  }

  /** `storeSettings`: the window bounds through the filter, the data written to the file. */
  function StoredSettings(filter: Json, bounds: Json): Option<Json>
  {
    FromTemplate(filter, bounds)
  }

  /** Loading settings as they were stored gives them back unchanged. */
  lemma ReloadGivesStoredSettings(filter: Json, bounds: Json)
    requires StoredSettings(filter, bounds).Some?
    ensures LoadSettings(filter, Parsed(StoredSettings(filter, bounds).value)) == Resolved(StoredSettings(filter, bounds).value)
  {
    FromTemplateIdempotent(filter, bounds);
  }

  /** A call of `setPosition` or `setSize` with its two arguments. */
  datatype Pair = Pair(first: Json, second: Json)

  /** `#configurePosition`: move the window only when both `x` and `y` are truthy. */
  function ConfigurePosition(settings: Json): (move: Option<Pair>)
    ensures move.Some? <==> Truthy(Prop(settings, "x")) && Truthy(Prop(settings, "y"))
    ensures move.Some? ==> move.value == Pair(Prop(settings, "x"), Prop(settings, "y"))
  {
    if Truthy(Prop(settings, "x")) && Truthy(Prop(settings, "y")) then Some(Pair(Prop(settings, "x"), Prop(settings, "y"))) else None
  }

  /** `#configureSize`: resize the window only when both `width` and `height` are truthy. */
  function ConfigureSize(settings: Json): (resize: Option<Pair>)
    ensures resize.Some? <==> Truthy(Prop(settings, "width")) && Truthy(Prop(settings, "height"))
    ensures resize.Some? ==> resize.value == Pair(Prop(settings, "width"), Prop(settings, "height"))
  {
    if Truthy(Prop(settings, "width")) && Truthy(Prop(settings, "height")) then Some(Pair(Prop(settings, "width"), Prop(settings, "height"))) else None
  }

  /** Window bounds as `storeSettings` writes them. */
  function Bounds(x: int, y: int, width: int, height: int): Json
  {
    Obj([Member("x", Num(x)), Member("y", Num(y)), Member("width", Num(width)), Member("height", Num(height))])
  }

  lemma BoundsRead(x: int, y: int, width: int, height: int)
    ensures Prop(Bounds(x, y, width, height), "x") == Num(x) && Prop(Bounds(x, y, width, height), "y") == Num(y)
    ensures Prop(Bounds(x, y, width, height), "width") == Num(width) && Prop(Bounds(x, y, width, height), "height") == Num(height)
  {
    var ms := Bounds(x, y, width, height).members;
    assert MemberKeys(ms) == SECURITY_KEYS;
    SecurityKeys();
    DedupOfDistinct(SECURITY_KEYS);
    PropOfMember(ms, 0);
    PropOfMember(ms, 1);
    PropOfMember(ms, 2);
    PropOfMember(ms, 3);
  }

  /** A window stored at the left or top screen edge is never moved back there: a 0 coordinate reads as false. */
  lemma ZeroCoordinateSkipsMove(x: int, y: int, width: int, height: int)
    requires x == 0 || y == 0
    ensures ConfigurePosition(Bounds(x, y, width, height)) == None
  {
    BoundsRead(x, y, width, height);
  }

  /** A stored size is restored exactly when neither side is 0. */
  lemma StoredSizeRestored(x: int, y: int, width: int, height: int)
    ensures ConfigureSize(Bounds(x, y, width, height)) == if width != 0 && height != 0 then Some(Pair(Num(width), Num(height))) else None
  {
    BoundsRead(x, y, width, height);
  }

  /** `createSecurityProperties()`, with `preload` the path of the preload script. */
  function SecurityProperties(preload: string): Json
  {
    Obj([Member("webPreferences", Obj([Member("sandbox", Bool(false)), Member("preload", Str(preload))])), Member("show", Bool(false))])
  }

  /** The options the window is created with: the security properties, then the additional settings over them. */
  function InitialOptions(preload: string, additional: Json): Json
  {
    Spread(SecurityProperties(preload), additional)
  }

  /** The window starts hidden with the preload script unless the additional settings replace those entries. */
  lemma InitialOptionsKeepSecurity(preload: string, additional: Json)
    ensures Prop(InitialOptions(preload, additional), "show") ==
      if "show" in Keys(additional) then Prop(additional, "show") else Bool(false)
    ensures Prop(InitialOptions(preload, additional), "webPreferences") ==
      if "webPreferences" in Keys(additional) then Prop(additional, "webPreferences")
      else Obj([Member("sandbox", Bool(false)), Member("preload", Str(preload))])
  {
    var ms := SecurityProperties(preload).members;
    assert MemberKeys(ms) == ["webPreferences", "show"];
    DedupOfDistinct(MemberKeys(ms));
    SpreadRead(SecurityProperties(preload), additional, "show");
    SpreadRead(SecurityProperties(preload), additional, "webPreferences");
    PropOfMember(ms, 0);
    PropOfMember(ms, 1);
  }
}
