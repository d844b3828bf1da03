/** Shrinking the artifact context a learner brings into a chat so that its printed form always
    fits the character budget. */
module ArtifactContext {
  import opened Prelude
  import opened Json
  import Text

  type Fields = seq<Field>

  const MAX_CHARS := 8000
  const MATERIAL_CHARS := 1800
  const LIST_LIMIT := 30
  const TOP_KEYS := ["artifactId", "artifactType", "artifactTitle", "eventType"]
  const PAYLOAD_KEYS := ["contextVersion", "instruction", "workspace", "focus", "learnerWork"]
  const MATERIAL_KEYS := ["id", "title", "level", "goal", "text", "text_truncated", "original_text_length"]

  predicate Fits(context: Fields) {
    Size(Obj(context)) <= MAX_CHARS
  }

  function Decimal(n: nat): string {
    (if n >= 10 then Decimal(n / 10) else "") + ["0123456789"[n % 10]]
  }

  /** A material whose text was cut, and which says so. */
  function CutMaterial(material: Fields, text: string): Fields {
    Set(Set(Set(material,
                "text", Str(Text.Rstrip(Text.Take(text, MATERIAL_CHARS)))),
            "text_truncated", Bool(true)),
        "original_text_length", Num(Decimal(|text|), false))
  }

  /** The learning material inside a context: context.payload.material, when both are objects. */
  function Material(context: Fields): Option<Fields> {
    var payload := Child(context, "payload");
    if payload.None? then None else Child(payload.value, "material")
  }

  /** The material's text, when it is too long. */
  function LongText(context: Fields): Option<string> {
    var material := Material(context);
    if material.None? then None
    else match Get(material.value, "text")
      case Some(Str(text)) => if |text| > MATERIAL_CHARS then Some(text) else None
      case _ => None
  }

  /** The context with an overlong material text cut. */
  function Normalized(context: Fields): Fields {
    var text := LongText(context);
    if text.None? then context
    else
      var payload, material := Child(context, "payload").value, Material(context).value;
      Set(context, "payload", Obj(Set(payload, "material", Obj(CutMaterial(material, text.value)))))
  }

  /** The entries that matter most. */
  function Compact(context: Fields): Fields {
    var payload := Child(context, "payload");
    var material := Material(context);
    var inner :=
      (if payload.None? then [] else Select(payload.value, PAYLOAD_KEYS))
      + (if material.None? then [] else [Field("material", Obj(Select(material.value, MATERIAL_KEYS)))]);
    Select(context, TOP_KEYS) + if inner == [] then [] else [Field("payload", Obj(inner))]
  }

  function Bounded(context: Fields, strings: nat): Fields {
    BoundFields(context, strings, LIST_LIMIT)
  }

  predicate Truthy(v: Json) {
    match v
    case Null => false
    case Bool(b) => b
    case Num(_, zero) => !zero
    case Str(s) => s != ""
    case Arr(items) => items != []
    case Obj(fields) => fields != []
  }

  /** The entry under a key, or the default when it is missing or falsy, cut to the limit; `str`
      renders values that are not strings. */
  function Label(str: Json -> string, context: Fields, key: string, default: string, limit: nat): string {
    var value := Get(context, key);
    var text := if value.None? || !Truthy(value.value) then default
                else match value.value case Str(s) => s case other => str(other);
    Text.Take(text, limit)
  }

  function Fallback(str: Json -> string, context: Fields): Fields {
    [ Field("artifactType", Str(Label(str, context, "artifactType", "unknown", 100))),
      Field("artifactTitle", Str(Label(str, context, "artifactTitle", "", 240))),
      Field("eventType", Str(Label(str, context, "eventType", "", 100))),
      Field("context_truncated", Bool(true)) ]
  }

  /** The string limit of the retry loop: the first that fits. */
  function FittingLimit(compact: Fields): Option<nat> {
    if Fits(Bounded(compact, 1000)) then Some(1000)
    else if Fits(Bounded(compact, 500)) then Some(500)
    else if Fits(Bounded(compact, 240)) then Some(240)
    else None
  }

  function BoundedContext(str: Json -> string, context: Option<Fields>): Option<Fields> {
    if context.None? || context.value == [] then None
    else
      var normalized := Normalized(context.value);
      if Fits(normalized) then Some(normalized)
      else
        var compact := Compact(normalized);
        var limit := FittingLimit(compact);
        Some(if limit.Some? then Bounded(compact, limit.value) else Fallback(str, normalized))
  }

  method BoundedArtifactContext(str: Json -> string, context: Option<Fields>) returns (r: Option<Fields>)
    ensures r == BoundedContext(str, context)
    ensures r.None? <==> context.None? || context.value == []
    ensures r.Some? ==> Fits(r.value)
  {
    if context.None? || context.value == [] { return None; }
    var normalized := context.value;
    var text := LongText(normalized);
    if text.Some? {
      var payload, material := Child(normalized, "payload").value, Material(normalized).value;
      material := Set(material, "text", Str(Text.Rstrip(Text.Take(text.value, MATERIAL_CHARS))));
      material := Set(material, "text_truncated", Bool(true));
      material := Set(material, "original_text_length", Num(Decimal(|text.value|), false));
      normalized := Set(normalized, "payload", Obj(Set(payload, "material", Obj(material))));
    }
    if Fits(normalized) { return Some(normalized); }
    var compact := Compact(normalized);
    var limits: seq<nat> := [1000, 500, 240];
    for i := 0 to 3
      invariant forall j :: 0 <= j < i ==> !Fits(Bounded(compact, limits[j]))
    {
      var bounded := Bounded(compact, limits[i]);
      if Fits(bounded) {
        assert FittingLimit(compact) == Some(limits[i]) by {
          assert i >= 1 ==> !Fits(Bounded(compact, limits[0]));
          assert i >= 2 ==> !Fits(Bounded(compact, limits[1]));
        }
        return Some(bounded);
      }
    }
    assert !Fits(Bounded(compact, limits[0])) && !Fits(Bounded(compact, limits[1]));
    assert !Fits(Bounded(compact, limits[2]));
    FallbackFits(str, normalized);
    return Some(Fallback(str, normalized));
  }

  // ----- the budget -----

  /** The last resort fits whatever its three labels contain, even if every character is escaped. */
  lemma FallbackFits(str: Json -> string, context: Fields)
    ensures Fits(Fallback(str, context))
  {
    hide Escape;
    var f := Fallback(str, context);
    forall i | 0 <= i < 3 ensures f[i].value.Str? && |Escape(f[i].value.s)| <= 1440 {
      EscapeSize(f[i].value.s);
    }
    KeySize("artifactType");
    KeySize("artifactTitle");
    KeySize("eventType");
    KeySize("context_truncated");
    assert f[1..][1..] == f[2..] && f[2..][1..] == f[3..] && f[3..][1..] == [];
    assert |PrintFields(f[3..])| <= 200;
    assert |PrintFields(f[2..])| <= 1900;
    assert |PrintFields(f[1..])| <= 3600;
    assert |PrintFields(f)| <= 5300;
    assert Print(Obj(f)) == "{" + PrintFields(f) + "}";
  }

  lemma KeySize(key: string)
    requires |key| <= 20
    ensures |Quote(key)| <= 122
  {
    EscapeSize(key);
  }

  /** The retry loop settles on the largest of its three limits that fits, and gives up exactly when
      the smallest does not fit. */
  lemma LargestFittingLimit(compact: Fields)
    ensures FittingLimit(compact).None? <==> !Fits(Bounded(compact, 240))
    ensures FittingLimit(compact).Some? ==>
      var limit := FittingLimit(compact).value;
      && limit in {1000, 500, 240}
      && Fits(Bounded(compact, limit))
      && forall m :: m in {1000, 500, 240} ==> (Fits(Bounded(compact, m)) <==> m <= limit)
  {
    BoundSizeMonotone(Obj(compact), 240, 500, LIST_LIMIT);
    BoundSizeMonotone(Obj(compact), 500, 1000, LIST_LIMIT);
    hide Size, BoundFields;
  }

  // ----- bounding again -----

  lemma CutMaterialText(material: Fields, text: string)
    requires |text| > MATERIAL_CHARS
    ensures Get(CutMaterial(material, text), "text") == Some(Str(Truncated(text, MATERIAL_CHARS)))
  {
    var cut := Str(Text.Rstrip(Text.Take(text, MATERIAL_CHARS)));
    GetSet(material, "text", cut, "text");
    var one := Set(material, "text", cut);
    GetSet(one, "text_truncated", Bool(true), "text");
    var two := Set(one, "text_truncated", Bool(true));
    GetSet(two, "original_text_length", Num(Decimal(|text|), false), "text");
    assert "text" != "text_truncated" && "text" != "original_text_length" by {
      assert |"text"| != |"text_truncated"| && |"text"| != |"original_text_length"|;
    }
  }

  lemma NormalizedText(context: Fields)
    ensures LongText(Normalized(context)).None?
  {
    var text := LongText(context);
    if text.Some? {
      var payload, material := Child(context, "payload").value, Material(context).value;
      var cut := CutMaterial(material, text.value);
      CutMaterialText(material, text.value);
      TruncatedPrefix(text.value, MATERIAL_CHARS);
      GetSet(payload, "material", Obj(cut), "material");
      GetSet(context, "payload", Obj(Set(payload, "material", Obj(cut))), "payload");
    }
  }

  lemma BoundedText(context: Fields, strings: nat)
    requires strings <= MATERIAL_CHARS
    ensures LongText(Bounded(context, strings)).None?
  {
    GetBound(context, strings, LIST_LIMIT, "payload");
    var payload := Child(context, "payload");
    if payload.Some? {
      GetBound(payload.value, strings, LIST_LIMIT, "material");
      var material := Child(payload.value, "material");
      if material.Some? {
        GetBound(material.value, strings, LIST_LIMIT, "text");
        match Get(material.value, "text")
        case Some(Str(text)) => TruncatedPrefix(text, strings);
        case _ =>
      }
    }
  }

  lemma FallbackHasNoPayload(str: Json -> string, context: Fields)
    ensures Get(Fallback(str, context), "payload").None?
  {
    var f := Fallback(str, context);
    NotPayload("artifactType");
    NotPayload("artifactTitle");
    NotPayload("eventType");
    assert |"context_truncated"| == 17 && |"payload"| == 7;
    assert Get(f[3..], "payload").None? by { assert f[3..][1..] == []; }
    assert Get(f[2..], "payload").None? by { assert f[2..][1..] == f[3..]; }
    assert Get(f[1..], "payload").None? by { assert f[1..][1..] == f[2..]; }
  }

  /** Whatever comes out has no overlong material text any more. */
  lemma ResultText(str: Json -> string, context: Option<Fields>)
    ensures var r := BoundedContext(str, context); r.Some? ==> LongText(r.value).None?
  {
    if context.Some? && context.value != [] {
      var normalized := Normalized(context.value);
      NormalizedText(context.value);
      var compact := Compact(normalized);
      if !Fits(normalized) {
        var limit := FittingLimit(compact);
        if limit.Some? { BoundedText(compact, limit.value); }
        else { FallbackHasNoPayload(str, normalized); }
      }
      hide Fits, Compact, Bounded, Fallback, Normalized;
    }
  }

  lemma ResultFits(str: Json -> string, context: Option<Fields>)
    ensures var r := BoundedContext(str, context); r.Some? ==> Fits(r.value)
  {
    if context.Some? && context.value != [] {
      FallbackFits(str, Normalized(context.value));
      hide Fits, Compact, Bounded, Fallback, Normalized;
    }
  }

  /** A context is kept whole, its overlong material text apart, exactly when it then prints to at most
      8000 characters. */
  lemma KeptWhole(str: Json -> string, context: Fields)
    requires context != []
    ensures BoundedContext(str, Some(context)) == Some(Normalized(context))
      <==> Size(Obj(Normalized(context))) <= 8000
    ensures Size(Obj(BoundedContext(str, Some(context)).value)) <= 8000
  {
    ResultFits(str, Some(context));
    NormalizedNotEmpty(context);
    hide Size, Normalized, Compact, Bounded, Fallback;
  }

  lemma NormalizedNotEmpty(context: Fields)
    requires context != []
    ensures Normalized(context) != []
  {
    hide LongText, Material, CutMaterial;
  }

  // ----- contexts that are emptied -----

  /** An object too long to be kept that has nothing under any key the compact form keeps. */
  predicate LosesEverything(context: Fields) {
    && !Fits(context)
    && (forall i :: 0 <= i < |TOP_KEYS| ==> Get(context, TOP_KEYS[i]).None?)
    && (Child(context, "payload").Some? ==>
          forall i :: 0 <= i < |PAYLOAD_KEYS| ==> Get(Child(context, "payload").value, PAYLOAD_KEYS[i]).None?)
    && Material(context).None?
  }

  lemma {:induction false} SelectNothing(fields: Fields, keys: seq<string>)
    ensures Select(fields, keys) == [] <==> forall i :: 0 <= i < |keys| ==> Get(fields, keys[i]).None?
  {
    if keys != [] {
      SelectNothing(fields, keys[1..]);
      assert forall i :: 0 < i < |keys| ==> keys[i] == keys[1..][i - 1];
    }
  }

  lemma CompactNothing(context: Fields)
    requires !Fits(context)
    ensures Compact(context) == [] <==> LosesEverything(context)
  {
    var payload := Child(context, "payload");
    SelectNothing(context, TOP_KEYS);
    if payload.Some? { SelectNothing(payload.value, PAYLOAD_KEYS); }
    hide Get, Select, Fits;
  }

  lemma NormalizedKeepsMaterial(context: Fields)
    ensures LongText(context).None? ==> Normalized(context) == context
    ensures LongText(context).Some? ==> Material(Normalized(context)).Some? && Material(context).Some?
  {
    var text := LongText(context);
    if text.Some? {
      var payload, material := Child(context, "payload").value, Material(context).value;
      var cut := CutMaterial(material, text.value);
      GetSet(payload, "material", Obj(cut), "material");
      GetSet(context, "payload", Obj(Set(payload, "material", Obj(cut))), "payload");
    }
  }

  /** The result is an empty object exactly for a context that loses everything it held. */
  lemma EmptiedExactly(str: Json -> string, context: Fields)
    ensures BoundedContext(str, Some(context)) == Some([]) <==> LosesEverything(context)
  {
    var n := Normalized(context);
    NormalizedKeepsMaterial(context);
    FitsEmpty();
    if !Fits(n) { CompactNothing(n); }
    hide Get, Child, Compact, Fits, Normalized;
  }

  lemma FitsEmpty()
    ensures Fits([])
  {
  }

  /** For example, one long string under a key of its own. */
  lemma EmptiedExample(str: Json -> string)
    ensures BoundedContext(str, Some([Field("x", Str(seq(8000, _ => 'a')))])) == Some([])
  {
    var text := seq(8000, _ => 'a');
    var context := [Field("x", Str(text))];
    EscapeSize(text);
    assert !Fits(context) by {
      assert PrintFields(context) == Quote("x") + ": " + Print(Str(text)) + "" + PrintFields([]);
    }
    hide Fits, Print, Size;
    assert |"artifactId"| > 1 && |"artifactType"| > 1 && |"artifactTitle"| > 1 && |"eventType"| > 1 && |"payload"| > 1;
    assert forall i :: 0 <= i < |TOP_KEYS| ==> Get(context, TOP_KEYS[i]).None? by {
      forall i | 0 <= i < |TOP_KEYS| ensures Get(context, TOP_KEYS[i]).None? {
        LongKeyMissing(Str(text), TOP_KEYS[i]);
      }
    }
    LongKeyMissing(Str(text), "payload");
    EmptiedExactly(str, context);
  }

  lemma LongKeyMissing(v: Json, key: string)
    requires |key| > 1
    ensures Get([Field("x", v)], key).None?
  {
    assert key != "x" by { assert |"x"| == 1; }
    assert [Field("x", v)][1..] == [];
  }

  /** Bounding an already bounded context changes nothing, except for a context that loses everything
      it held: its empty result becomes no context at all. */
  lemma BoundingIsIdempotent(str: Json -> string, context: Option<Fields>)
    ensures var r := BoundedContext(str, context);
      BoundedContext(str, r) == if context.Some? && LosesEverything(context.value) then None else r
  {
    ResultText(str, context);
    ResultFits(str, context);
    if context.Some? { EmptiedExactly(str, context.value); }
    hide Fits, LongText, LosesEverything;
  }

  // ----- what survives the shrinking -----

  function BoundedEntry(entry: Option<Json>, limit: nat): Option<Json> {
    match entry
    case None => None
    case Some(v) => Some(Bound(v, limit, 30))
  }

  /** The object under a key, or an empty one. */
  function ChildOrEmpty(fields: Fields, key: string): Fields {
    if Child(fields, key).Some? then Child(fields, key).value else []
  }

  /** Exactly what a shrunk context keeps under a key, at the top, in the payload and in the material,
      each entry bounded by one common limit. */
  ghost predicate Keeps(n: Fields, r: Fields, limit: nat, key: string) {
    var payload, material := ChildOrEmpty(n, "payload"), ChildOrEmpty(ChildOrEmpty(n, "payload"), "material");
    var payload', material' := ChildOrEmpty(r, "payload"), ChildOrEmpty(ChildOrEmpty(r, "payload"), "material");
    && (key in ["artifactId", "artifactType", "artifactTitle", "eventType"] ==>
          Get(r, key) == BoundedEntry(Get(n, key), limit))
    && (key !in ["artifactId", "artifactType", "artifactTitle", "eventType", "payload"] ==> Get(r, key).None?)
    && (key in ["contextVersion", "instruction", "workspace", "focus", "learnerWork"] ==>
          Get(payload', key) == BoundedEntry(Get(payload, key), limit))
    && (key !in ["contextVersion", "instruction", "workspace", "focus", "learnerWork", "material"] ==>
          Get(payload', key).None?)
    && (key in ["id", "title", "level", "goal", "text", "text_truncated", "original_text_length"] ==>
          Get(material', key) == BoundedEntry(Get(material, key), limit))
    && (key !in ["id", "title", "level", "goal", "text", "text_truncated", "original_text_length"] ==>
          Get(material', key).None?)
  }

  /** A context that is shrunk but not given up keeps its identifying entries, the learner's work and
      the named parts of the material, each bounded by one common limit, and nothing else. */
  lemma WorkSurvives(str: Json -> string, context: Fields, key: string)
    requires var n := Normalized(context);
      context != [] && !Fits(n) && FittingLimit(Compact(n)).Some?
    ensures var n := Normalized(context);
      Keeps(n, BoundedContext(str, Some(context)).value, FittingLimit(Compact(n)).value, key)
  {
    var n := Normalized(context);
    var compact := Compact(n);
    var limit := FittingLimit(compact).value;
    hide Fits, Normalized, Compact, FittingLimit;
    BoundedKeeps(n, key, limit);
  }

  /** The top, the payload and the material of the compact form. */
  lemma CompactParts(n: Fields, key: string)
    ensures var c, payload := Compact(n), Child(n, "payload");
      var material := if payload.None? then None else Child(payload.value, "material");
      var payload' := ChildOrEmpty(c, "payload");
      && (key in TOP_KEYS ==> Get(c, key) == Get(n, key))
      && (key !in TOP_KEYS && key != "payload" ==> Get(c, key).None?)
      && Get(payload', key)
         == (if key in PAYLOAD_KEYS then Get(ChildOrEmpty(n, "payload"), key)
             else if key == "material" && material.Some? then Some(Obj(Select(material.value, MATERIAL_KEYS)))
             else None)
  {
    var payload, material := Child(n, "payload"), Material(n);
    var kept := if payload.None? then [] else Select(payload.value, PAYLOAD_KEYS);
    var learned := if material.None? then [] else [Field("material", Obj(Select(material.value, MATERIAL_KEYS)))];
    var inner := kept + learned;
    var tail := if inner == [] then [] else [Field("payload", Obj(inner))];
    var top := Select(n, TOP_KEYS);
    assert Compact(n) == top + tail;
    NotTop();
    hide Select, Child, Compact;
    GetSelect(n, TOP_KEYS, key);
    GetSelect(n, TOP_KEYS, "payload");
    GetAppend(top, tail, key);
    GetAppend(top, tail, "payload");
    GetAppend(kept, learned, key);
    if payload.Some? { GetSelect(payload.value, PAYLOAD_KEYS, key); }
    ChildOfTail(top + tail, inner);
    hide Material;
  }

  lemma NotTop()
    ensures "payload" !in TOP_KEYS && "material" !in PAYLOAD_KEYS
  {
    assert |"payload"| == 7 && |"material"| == 8 && |"eventType"| == 9;
    assert |"focus"| == 5 && |"workspace"| == 9;
    assert forall i :: 0 <= i < |TOP_KEYS| ==> |TOP_KEYS[i]| > 7;
    assert forall i :: 0 <= i < |PAYLOAD_KEYS| ==> |PAYLOAD_KEYS[i]| != 8;
  }

  lemma ChildOfTail(c: Fields, inner: Fields)
    requires Get(c, "payload") == if inner == [] then None else Some(Obj(inner))
    ensures ChildOrEmpty(c, "payload") == inner
  {
  }

  lemma ChildBound(fields: Fields, limit: nat, key: string)
    ensures ChildOrEmpty(BoundFields(fields, limit, 30), key) == BoundFields(ChildOrEmpty(fields, key), limit, 30)
  {
    GetBound(fields, limit, 30, key);
  }

  lemma EntryBound(fields: Fields, limit: nat, key: string)
    ensures Get(BoundFields(fields, limit, 30), key) == BoundedEntry(Get(fields, key), limit)
  {
    GetBound(fields, limit, 30, key);
  }

  lemma BoundedKeeps(n: Fields, key: string, limit: nat)
    ensures Keeps(n, Bounded(Compact(n), limit), limit, key)
  {
    var c := Compact(n);
    var payload' := ChildOrEmpty(c, "payload");
    var material := ChildOrEmpty(ChildOrEmpty(n, "payload"), "material");
    CompactParts(n, key);
    CompactParts(n, "material");
    NotTop();
    hide Compact, Get, Select, BoundFields;
    assert Get(ChildOrEmpty(payload', "material"), key)
        == if key in MATERIAL_KEYS then Get(material, key) else None by {
      GetSelect(material, MATERIAL_KEYS, key);
      NothingInNothing(key);
      NothingInNothing("material");
      SelectFromNothing(MATERIAL_KEYS);
    }
    EntryBound(c, limit, key);
    ChildBound(c, limit, "payload");
    EntryBound(payload', limit, key);
    ChildBound(payload', limit, "material");
    EntryBound(ChildOrEmpty(payload', "material"), limit, key);
    hide BoundedEntry, ChildOrEmpty;
  }

  lemma NothingInNothing(key: string)
    ensures Get([], key).None?
  {
  }

  lemma {:induction false} SelectFromNothing(keys: seq<string>)
    ensures Select([], keys) == []
  {
    if keys != [] { SelectFromNothing(keys[1..]); }
  }

  /** What is left of a context that is given up: three labels, cut, and a mark. A label that is a
      non-empty string is its beginning; a missing one has its default. */
  lemma GivenUpExactly(str: Json -> string, context: Fields)
    requires var n := Normalized(context);
      context != [] && !Fits(n) && FittingLimit(Compact(n)).None?
    ensures var n, r := Normalized(context), BoundedContext(str, Some(context)).value;
      && |r| == 4
      && r[0] == Field("artifactType", Str(Label(str, n, "artifactType", "unknown", 100)))
      && r[1] == Field("artifactTitle", Str(Label(str, n, "artifactTitle", "", 240)))
      && r[2] == Field("eventType", Str(Label(str, n, "eventType", "", 100)))
      && r[3] == Field("context_truncated", Bool(true))
  {
  }

  lemma LabelExactly(str: Json -> string, context: Fields, key: string, default: string, limit: nat)
    requires |default| <= limit
    ensures var shown, entry := Label(str, context, key, default, limit), Get(context, key);
      && |shown| <= limit
      && (entry.None? || entry == Some(Null) || entry == Some(Str("")) ==> shown == default)
      && (entry.Some? && entry.value.Str? && entry.value.s != "" ==>
            shown <= entry.value.s && (|shown| == limit || shown == entry.value.s))
      && (entry.Some? && (entry.value == Bool(true) || (entry.value.Num? && !entry.value.zero)) ==>
            shown <= str(entry.value) && (|shown| == limit || shown == str(entry.value)))
  {
  }

  /** A material text over 1800 characters is replaced by its beginning, with a mark and its length;
      everything else in the material, the payload and the context stays. */
  lemma CutExactly(context: Fields, text: string, key: string)
    requires var material := ChildOrEmpty(ChildOrEmpty(context, "payload"), "material");
      Get(material, "text") == Some(Str(text)) && |text| > 1800
    ensures var n := Normalized(context);
      var payload, payload' := ChildOrEmpty(context, "payload"), ChildOrEmpty(n, "payload");
      var material, material' := ChildOrEmpty(payload, "material"), ChildOrEmpty(payload', "material");
      && Get(material', "text") == Some(Str(Truncated(text, 1800)))
      && Get(material', "text_truncated") == Some(Bool(true))
      && Get(material', "original_text_length") == Some(Num(Decimal(|text|), false))
      && (key !in ["text", "text_truncated", "original_text_length"] ==> Get(material', key) == Get(material, key))
      && (key != "material" ==> Get(payload', key) == Get(payload, key))
      && (key != "payload" ==> Get(n, key) == Get(context, key))
  {
    var payload := ChildOrEmpty(context, "payload");
    var material := ChildOrEmpty(payload, "material");
    NothingInNothing("text");
    NothingInNothing("material");
    assert LongText(context) == Some(text);
    CutEntries(material, text, key);
    var cut := CutMaterial(material, text);
    GetSet(payload, "material", Obj(cut), key);
    GetSet(payload, "material", Obj(cut), "material");
    GetSet(context, "payload", Obj(Set(payload, "material", Obj(cut))), key);
    GetSet(context, "payload", Obj(Set(payload, "material", Obj(cut))), "payload");
    hide Get, Set, CutMaterial, Truncated, Decimal;
  }

  lemma CutEntries(material: Fields, text: string, key: string)
    requires |text| > 1800
    ensures var cut := CutMaterial(material, text);
      && Get(cut, "text") == Some(Str(Truncated(text, 1800)))
      && Get(cut, "text_truncated") == Some(Bool(true))
      && Get(cut, "original_text_length") == Some(Num(Decimal(|text|), false))
      && (key !in ["text", "text_truncated", "original_text_length"] ==> Get(cut, key) == Get(material, key))
  {
    CutMaterialText(material, text);
    var one := Set(material, "text", Str(Text.Rstrip(Text.Take(text, MATERIAL_CHARS))));
    var two := Set(one, "text_truncated", Bool(true));
    var long := Num(Decimal(|text|), false);
    GetSet(material, "text", Str(Text.Rstrip(Text.Take(text, MATERIAL_CHARS))), key);
    GetSet(one, "text_truncated", Bool(true), key);
    GetSet(one, "text_truncated", Bool(true), "text_truncated");
    GetSet(two, "original_text_length", long, key);
    GetSet(two, "original_text_length", long, "text_truncated");
    GetSet(two, "original_text_length", long, "original_text_length");
    assert |"text_truncated"| != |"original_text_length"|;
    hide Get, Set, Decimal, Truncated, Text.Rstrip, Text.Take;
  }

  /** The number a string of decimal digits stands for. */
  function Digits(s: string): nat {
    if s == "" then 0
    else 10 * Digits(s[..|s| - 1]) + (if '0' <= s[|s| - 1] <= '9' then s[|s| - 1] as int - '0' as int else 0)
  }

  lemma {:induction false} DecimalReadsBack(n: nat)
    ensures Digits(Decimal(n)) == n
    decreases n
  {
    var d := Decimal(n);
    var last := "0123456789"[n % 10];
    assert d[|d| - 1] == last && last as int - '0' as int == n % 10;
    if n >= 10 {
      DecimalReadsBack(n / 10);
      assert d[..|d| - 1] == Decimal(n / 10);
    } else {
      assert d[..|d| - 1] == "";
    }
  }

  lemma {:induction false} GetAppend(a: Fields, b: Fields, key: string)
    ensures Get(a + b, key) == if Get(a, key).Some? then Get(a, key) else Get(b, key)
  {
    if a == [] {
      assert a + b == b;
    } else {
      GetAppend(a[1..], b, key);
      assert (a + b)[1..] == a[1..] + b;
    }
  }

  lemma NotPayload(key: string)
    requires key in TOP_KEYS
    ensures key != "payload"
  {
  }
}
