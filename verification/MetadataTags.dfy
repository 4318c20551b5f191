/** The type tag of team metadata: refused at any depth inbound, stripped at any depth outbound. */
module MetadataTags {
  import opened Wrappers

  datatype Json =
    | JNull
    | JBool(flag: bool)
    | JNumber(number: real)
    | JString(text: string)
    | JArray(items: seq<Json>)
    | JObject(fields: map<string, Json>)

  const TAG := "__model__"

  predicate ContainsTag(v: Json) {
    match v
    case JObject(fields) => TAG in fields || exists k <- fields :: ContainsTag(fields[k])
    case JArray(items) => exists i | 0 <= i < |items| :: ContainsTag(items[i])
    case _ => false
  }

  function StripTags(v: Json): Json {
    match v
    case JObject(fields) => JObject(map k <- fields | k != TAG :: StripTags(fields[k]))
    case JArray(items) => JArray(seq(|items|, i requires 0 <= i < |items| => StripTags(items[i])))
    case _ => v
  }

  // ----- what a document holds, place by place -----

  datatype Step = Key(key: string) | Index(index: nat)

  /** The value at a place of a document, if the document has that place. */
  function Lookup(v: Json, path: seq<Step>): Option<Json> {
    if path == [] then Some(v)
    else
      match path[0]
      case Key(k) => if v.JObject? && k in v.fields then Lookup(v.fields[k], path[1..]) else None
      case Index(i) => if v.JArray? && i < |v.items| then Lookup(v.items[i], path[1..]) else None
  }

  /** The scan finds a tag exactly when some place of the document is one. */
  lemma {:induction false} ScanFindsTag(v: Json) returns (path: seq<Step>)
    requires ContainsTag(v)
    ensures Lookup(v, path + [Key(TAG)]).Some?
  {
    if v.JObject? && TAG in v.fields {
      path := [];
    } else if v.JObject? {
      var k :| k in v.fields && ContainsTag(v.fields[k]);
      var rest := ScanFindsTag(v.fields[k]);
      path := [Key(k)] + rest;
      assert (path + [Key(TAG)])[1..] == rest + [Key(TAG)];
    } else {
      var i :| 0 <= i < |v.items| && ContainsTag(v.items[i]);
      var rest := ScanFindsTag(v.items[i]);
      path := [Index(i)] + rest;
      assert (path + [Key(TAG)])[1..] == rest + [Key(TAG)];
    }
  }

  lemma {:induction false} TagIsScanned(v: Json, path: seq<Step>)
    requires Key(TAG) in path && Lookup(v, path).Some?
    ensures ContainsTag(v)
  {
    if path[0] != Key(TAG) {
      assert path == [path[0]] + path[1..];
      match path[0]
      case Key(k) => TagIsScanned(v.fields[k], path[1..]);
      case Index(i) => TagIsScanned(v.items[i], path[1..]);
    }
  }

  /** Stripping removes the places under a tag and no other: every place without a tag on the
      way is kept, holding its own value stripped. */
  lemma {:induction false} StripKeepsPlaces(v: Json, path: seq<Step>)
    ensures Lookup(StripTags(v), path) ==
            var before := Lookup(v, path);
            if before.None? || Key(TAG) in path then None else Some(StripTags(before.value))
  {
    if path == [] {
    } else {
      assert path == [path[0]] + path[1..];
      match path[0]
      case Key(k) => if v.JObject? && k in v.fields { StripKeepsPlaces(v.fields[k], path[1..]); }
      case Index(i) => if v.JArray? && i < |v.items| { StripKeepsPlaces(v.items[i], path[1..]); }
    }
  }

  /** No tag is left at any depth. */
  lemma StripLeavesNoTag(v: Json)
    ensures !ContainsTag(StripTags(v))
  {
    if ContainsTag(StripTags(v)) {
      var path := ScanFindsTag(StripTags(v));
      StripKeepsPlaces(v, path + [Key(TAG)]);
    }
  }

  lemma {:induction false} StripKeepsUntagged(v: Json)
    requires !ContainsTag(v)
    ensures StripTags(v) == v
  {
    match v
    case JObject(fields) =>
      forall k | k in fields ensures StripTags(fields[k]) == fields[k] { StripKeepsUntagged(fields[k]); }
      assert StripTags(v).fields == fields;
    case JArray(items) =>
      forall i | 0 <= i < |items| ensures StripTags(items[i]) == items[i] { StripKeepsUntagged(items[i]); }
      assert StripTags(v).items == items;
    case _ =>
  }

  /** Stripping changes a document exactly when the scan would refuse it, and twice is once. */
  lemma StripIdentityIff(v: Json)
    ensures StripTags(v) == v <==> !ContainsTag(v)
    ensures StripTags(StripTags(v)) == StripTags(v)
  {
    StripLeavesNoTag(v);
    StripKeepsUntagged(StripTags(v));
    if !ContainsTag(v) { StripKeepsUntagged(v); }
  }

  // ----- inbound and outbound -----

  type Body = map<string, Json>
  type Schema<M> = Body -> Result<M, string>

  datatype MetadataError = TagNamed | NoContract | SchemaFailed(reason: string)

  /** The tag scan comes first, so a body that names a type is always told so. */
  function ValidateMetadata<M>(schema: Option<Schema<M>>, raw: Option<Body>): Result<Option<M>, MetadataError> {
    if raw.Some? && ContainsTag(JObject(raw.value)) then Err(TagNamed)
    else if raw.None? || raw.value == map[] then Ok(None)
    else if schema.None? then Err(NoContract)
    else
      var model := schema.value(raw.value);
      if model.Ok? then Ok(Some(model.value)) else Err(SchemaFailed(model.error))
  }

  /** The stored model's own dump, given, with its tags stripped. */
  function DumpMetadata(stored: Option<Body>): Option<Body> {
    if stored.None? then None
    else Some(map k <- stored.value | k != TAG :: StripTags(stored.value[k]))
  }

  /** A body that names a type anywhere is told so whatever the team declares, and no other body is. */
  lemma TagRefusedIff<M>(schema: Option<Schema<M>>, body: Body)
    ensures ValidateMetadata(schema, Some(body)) == Err(TagNamed) <==>
              exists path :: Lookup(JObject(body), path + [Key(TAG)]).Some?
  {
    var v := JObject(body);
    if ContainsTag(v) { var path := ScanFindsTag(v); }
    if path :| Lookup(v, path + [Key(TAG)]).Some? { TagIsScanned(v, path + [Key(TAG)]); }
  }

  /** Every answer and exactly when it is given: a tag anywhere is refused first; a body that is absent or
      empty is no metadata, with a contract or without; any other body needs one; and the contract alone
      decides what it is taken for or why it is refused. */
  lemma ValidateExact<M>(schema: Option<Schema<M>>, raw: Option<Body>, model: M, reason: string)
    ensures var answer := ValidateMetadata(schema, raw);
            var untagged := raw.None? || forall path :: Lookup(JObject(raw.value), path + [Key(TAG)]).None?;
            var given := untagged && raw.Some? && raw.value != map[];
            && (answer == Err(TagNamed) <==> !untagged)
            && (answer == Ok(None) <==> raw.None? || raw.value == map[])
            && (answer == Err(NoContract) <==> given && schema.None?)
            && (answer == Ok(Some(model)) <==> given && schema.Some? && schema.value(raw.value) == Ok(model))
            && (answer == Err(SchemaFailed(reason)) <==>
                given && schema.Some? && schema.value(raw.value) == Err(reason))
  {
    if raw.Some? {
      TagRefusedIff(schema, raw.value);
      EmptyIsUntagged();
    }
  }

  lemma EmptyIsUntagged()
    ensures forall path :: Lookup(JObject(map[]), path + [Key(TAG)]).None?
  {
    forall path ensures Lookup(JObject(map[]), path + [Key(TAG)]).None? {
      if Lookup(JObject(map[]), path + [Key(TAG)]).Some? { TagIsScanned(JObject(map[]), path + [Key(TAG)]); }
    }
  }

  /** What the server emits it takes back: a dumped document is never refused for a tag, and the
      declared schema is asked about exactly the stored fields without their tags. */
  lemma DumpIsAccepted<M>(schema: Schema<M>, stored: Body)
    ensures var dumped := DumpMetadata(Some(stored)).value;
            && JObject(dumped) == StripTags(JObject(stored))
            && !ContainsTag(JObject(dumped))
            && (stored.Keys <= {TAG} <==> ValidateMetadata(Some(schema), Some(dumped)) == Ok(None))
            && (!(stored.Keys <= {TAG}) ==>
                  var model := schema(dumped);
                  ValidateMetadata(Some(schema), Some(dumped)) ==
                  if model.Ok? then Ok(Some(model.value)) else Err(SchemaFailed(model.error)))
  {
    var dumped := DumpMetadata(Some(stored)).value;
    StripLeavesNoTag(JObject(stored));
    if k :| k in stored && k != TAG { assert k in dumped; }
  }
}
