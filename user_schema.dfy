/** The `User` schema: its paths, the `trim` and `lowercase` setters, the defaults of
    `isActive` and `tags`, the `required`, `min` and `max` validators, and the unique index
    on `email`. */
module UserSchema {
  import opened Text
  import opened Json
  import opened Exceptions
  import opened Store

  const Paths: set<string> := {"name", "email", "age", "isActive", "tags"}

  const MinAge := 0
  const MaxAge := 120

  /** `name` is trimmed, `email` lower-cased and trimmed; setters act on strings only. */
  function Setter(path: string, v: Value): Value
  {
    if path == "name" && v.Str? then Str(Trim(v.s))
    else if path == "email" && v.Str? then Str(Trim(ToLower(v.s)))
    else v
  }

  /** `isActive` defaults to `true`, `tags` to `[]`. */
  const Defaults: Doc := map["isActive" := Bool(true), "tags" := Arr([])]

  /** `required` fails on `undefined` and `null`, and on `''` at a string path. */
  predicate RequiredFails(doc: Doc, path: string)
  {
    var v := Get(doc, path);
    v.Undefined? || v.Null? || ((path == "name" || path == "email") && v == Str(""))
  }

  function RequiredError(doc: Doc, path: string): FieldError
  {
    FieldError(path, "Path `" + path + "` is required.", Get(doc, path))
  }

  /** `min: 0` and `max: 120` on a numeric age. */
  function AgeBoundErrors(v: Value): (r: seq<FieldError>)
    ensures r == [] <==> !v.Num? || MinAge <= v.n <= MaxAge
  {
    if v.Num? && v.n < MinAge then
      [FieldError("age", "Path `age` (" + IntString(v.n) + ") is less than minimum allowed value (0).", v)]
    else if v.Num? && v.n > MaxAge then
      [FieldError("age", "Path `age` (" + IntString(v.n) + ") is more than maximum allowed value (120).", v)]
    else []
  }

  function RequiredErrors(doc: Doc, path: string): seq<FieldError>
  {
    if RequiredFails(doc, path) then [RequiredError(doc, path)] else []
  }

  /** The validators `save` runs, path by path in declaration order. A record passes
      exactly when `name`, `email` and `age` are present (the strings non-empty) and a
      numeric age lies in [0, 120]. */
  function Validate(doc: Doc): (r: seq<FieldError>)
    ensures r == [] <==>
      && !RequiredFails(doc, "name") && !RequiredFails(doc, "email") && !RequiredFails(doc, "age")
      && (doc["age"].Num? ==> MinAge <= doc["age"].n <= MaxAge)
    ensures forall i :: 0 <= i < |r| ==> r[i].field in {"name", "email", "age"}
  {
    RequiredErrors(doc, "name") + RequiredErrors(doc, "email")
    + (if RequiredFails(doc, "age") then [RequiredError(doc, "age")] else AgeBoundErrors(doc["age"]))
  }

  /** A record with a non-empty string name and email and an age in range passes. */
  lemma ValidateAccepts(doc: Doc)
    requires "name" in doc && doc["name"].Str? && doc["name"].s != ""
    requires "email" in doc && doc["email"].Str? && doc["email"].s != ""
    requires "age" in doc && doc["age"].Num? && MinAge <= doc["age"].n <= MaxAge
    ensures Validate(doc) == []
  {
    assert !RequiredFails(doc, "name") && !RequiredFails(doc, "email") && !RequiredFails(doc, "age");
  }

  /** The update validators: only the paths the update names, with the same `required` rule
      as `save` (`null`, `undefined`, and `''` at a string path); the setters have already run,
      so a name of white space arrives as `''`. An empty update always passes. */
  function ValidateUpdate(patch: Doc): (r: seq<FieldError>)
    ensures r == [] <==>
      && (forall p :: p in patch && p in {"name", "email", "age"} ==> !RequiredFails(patch, p))
      && ("age" in patch && patch["age"].Num? ==> MinAge <= patch["age"].n <= MaxAge)
    ensures forall i :: 0 <= i < |r| ==> r[i].field in patch
  {
    (if "name" in patch then RequiredErrors(patch, "name") else [])
    + (if "email" in patch then RequiredErrors(patch, "email") else [])
    + (if "age" in patch && RequiredFails(patch, "age") then [RequiredError(patch, "age")]
       else if "age" in patch then AgeBoundErrors(patch["age"]) else [])
  }

  /** The `User` model's schema, with the unique index on `email`. */
  const User: Schema := Schema(Paths, Setter, Defaults, Validate, ValidateUpdate, ["email"])

  // ---------------------------------------------------------------- what the schema guarantees

  lemma TrimOfLowerIsLower(s: string)
    requires IsLower(s)
    ensures IsLower(Trim(s))
  {
    var t := TrimStart(s);
    LowerSlice(s, |s| - |t|, |s|);
    LowerSlice(t, 0, |TrimEnd(t)|);
  }

  lemma LowerSlice(s: string, i: nat, j: nat)
    requires IsLower(s) && i <= j <= |s|
    ensures IsLower(s[i..j])
  {
    forall k | 0 <= k < j - i ensures !('A' <= s[i..j][k] <= 'Z') {
      assert s[i..j][k] == s[i + k];
    }
  }

  /** A declared path present in the data is stored as the setter leaves it. */
  lemma BuildAt(data: Doc, k: string)
    requires k in data && k in Paths
    ensures k in Build(User, data) && Build(User, data)[k] == Setter(k, data[k])
  {
    assert k in Cast(User, data);
  }

  /** A path with a default that the data leaves out is stored with its default. */
  lemma BuildDefault(data: Doc, k: string)
    requires k in Defaults && k !in data
    ensures k in Build(User, data) && Build(User, data)[k] == Defaults[k]
  {
    assert k !in Cast(User, data);
  }

  /** A name that is not blank once trimmed is stored as a non-empty string. */
  lemma NameStored(data: Doc)
    requires "name" in data && data["name"].Str? && Trim(data["name"].s) != ""
    ensures var b := Build(User, data); "name" in b && b["name"].Str? && b["name"].s != ""
  {
    BuildAt(data, "name");
  }

  /** An email that is not blank once lower-cased and trimmed is stored as a non-empty string. */
  lemma EmailStored(data: Doc)
    requires "email" in data && data["email"].Str? && Trim(ToLower(data["email"].s)) != ""
    ensures var b := Build(User, data); "email" in b && b["email"].Str? && b["email"].s != ""
  {
    BuildAt(data, "email");
  }

  /** A numeric age is stored as it is. */
  lemma AgeStored(data: Doc)
    requires "age" in data && data["age"].Num?
    ensures var b := Build(User, data); "age" in b && b["age"] == data["age"]
  {
    BuildAt(data, "age");
  }

  /** A string `name` is stored trimmed. */
  lemma BuildName(data: Doc)
    requires "name" in data && data["name"].Str?
    ensures Build(User, data)["name"] == Str(Trim(data["name"].s)) && IsTrimmed(Trim(data["name"].s))
  {
    BuildAt(data, "name");
    TrimSpec(data["name"].s);
  }

  /** A string `email` is stored lower-cased and trimmed. */
  lemma BuildEmail(data: Doc)
    requires "email" in data && data["email"].Str?
    ensures var e := Trim(ToLower(data["email"].s));
      Build(User, data)["email"] == Str(e) && IsTrimmed(e) && IsLower(e)
  {
    var s := data["email"].s;
    BuildAt(data, "email");
    TrimSpec(ToLower(s));
    ToLowerIsLower(s);
    TrimOfLowerIsLower(ToLower(s));
  }

  /** Only declared paths are stored. */
  lemma BuildKeys(data: Doc)
    ensures Build(User, data).Keys <= Paths
  {
    assert Defaults.Keys <= Paths;
    assert Cast(User, data).Keys <= Paths;
  }

  /** What `new User(data)` stores: the undeclared paths dropped, `name` trimmed, `email`
      lower-cased and trimmed, `isActive` true and `tags` empty when left out. */
  lemma BuildNormalises(data: Doc)
    ensures Build(User, data).Keys <= Paths
    ensures "name" in data && data["name"].Str? ==>
      && Build(User, data)["name"] == Str(Trim(data["name"].s)) && IsTrimmed(Build(User, data)["name"].s)
    ensures "email" in data && data["email"].Str? ==>
      && Build(User, data)["email"] == Str(Trim(ToLower(data["email"].s)))
      && IsTrimmed(Build(User, data)["email"].s) && IsLower(Build(User, data)["email"].s)
    ensures "isActive" !in data ==> Build(User, data)["isActive"] == Bool(true)
    ensures "tags" !in data ==> Build(User, data)["tags"] == Arr([])
    ensures "age" in data ==> Build(User, data)["age"] == data["age"]
  {
    BuildKeys(data);
    if "name" in data && data["name"].Str? {
      BuildName(data);
    }
    if "email" in data && data["email"].Str? {
      BuildEmail(data);
    }
    if "isActive" !in data {
      BuildDefault(data, "isActive");
    }
    if "tags" !in data {
      BuildDefault(data, "tags");
    }
    if "age" in data {
      BuildAt(data, "age");
    }
  }

  /** Setting a stored value again changes nothing, so a query for a stored email finds it. */
  lemma SetterIdempotent(path: string, v: Value)
    ensures Setter(path, Setter(path, v)) == Setter(path, v)
  {
    if path == "name" && v.Str? {
      TrimIdempotent(v.s);
    } else if path == "email" && v.Str? {
      var t := Trim(ToLower(v.s));
      ToLowerIsLower(v.s);
      TrimOfLowerIsLower(ToLower(v.s));
      ToLowerOfLower(t);
      TrimIdempotent(ToLower(v.s));
    }
  }
}
