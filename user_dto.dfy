/** The request-body rules of `CreateUserDto` and `UpdateUserDto`, as predicates over the
    decoded JSON body. The validation pipe runs with `whitelist` and `forbidNonWhitelisted`,
    so a body naming a property the DTO does not declare is refused. */
module UserDto {
  import opened Text
  import opened Json
  import opened Store
  import opened StoreLemmas
  import opened UserSchema

  const MinNameLength := 2
  const MaxNameLength := 50

  const CreateProperties: set<string> := {"name", "email", "age", "tags"}
  const UpdateProperties: set<string> := {"name", "email", "age", "isActive", "tags"}

  /** `@IsOptional()`: a property that is absent, `null` or `undefined` skips its validators. */
  predicate Omitted(body: Doc, key: string)
  {
    key !in body || body[key].Null? || body[key].Undefined?
  }

  /** `@IsString() @MinLength(2) @MaxLength(50)`. */
  predicate NameOk(v: Value)
  {
    v.Str? && MinNameLength <= |v.s| <= MaxNameLength
  }

  predicate NoSpaceIn(s: string)
  {
    forall i :: 0 <= i < |s| ==> !IsSpace(s[i])
  }

  predicate NoAtIn(s: string)
  {
    forall i :: 0 <= i < |s| ==> s[i] != '@'
  }

  /** A simplified `@IsEmail()`: one `@` with a non-empty local part before it and, after it,
      a domain holding a `.` that is neither its first nor its last character; no whitespace. */
  predicate IsEmail(s: string)
  {
    && NoSpaceIn(s)
    && exists at | 0 < at < |s| ::
      && s[at] == '@' && NoAtIn(s[..at]) && NoAtIn(s[at + 1..])
      && exists dot | at + 1 < dot < |s| - 1 :: s[dot] == '.'
  }

  predicate EmailOk(v: Value)
  {
    v.Str? && IsEmail(v.s)
  }

  /** `@IsNumber() @Min(0) @Max(120)`. */
  predicate AgeOk(v: Value)
  {
    v.Num? && MinAge <= v.n <= MaxAge
  }

  /** `@IsArray() @IsString({ each: true })`. */
  predicate TagsOk(v: Value)
  {
    v.Arr? && forall i :: 0 <= i < |v.items| ==> v.items[i].Str?
  }

  /** `@IsBoolean()`. */
  predicate IsActiveOk(v: Value)
  {
    v.Bool?
  }

  /** A body the pipe accepts as a `CreateUserDto`: `name`, `email` and `age` present and
      valid, `tags` optional. */
  predicate ValidCreate(body: Doc): (r: bool)
    ensures r ==> "name" in body && "email" in body && "age" in body && ValidUpdate(body)
  {
    && body.Keys <= CreateProperties
    && "name" in body && NameOk(body["name"])
    && "email" in body && EmailOk(body["email"])
    && "age" in body && AgeOk(body["age"])
    && (Omitted(body, "tags") || TagsOk(body["tags"]))
  }

  /** A body the pipe accepts as an `UpdateUserDto`: every property optional, and each one
      given obeys the same rule as on create. */
  predicate ValidUpdate(body: Doc): (r: bool)
    ensures body == map[] ==> r
  {
    && body.Keys <= UpdateProperties
    && (Omitted(body, "name") || NameOk(body["name"]))
    && (Omitted(body, "email") || EmailOk(body["email"]))
    && (Omitted(body, "age") || AgeOk(body["age"]))
    && (Omitted(body, "isActive") || IsActiveOk(body["isActive"]))
    && (Omitted(body, "tags") || TagsOk(body["tags"]))
  }

  // ---------------------------------------------------------------- what the rules guarantee

  /** The update rules accept the empty patch, and every create body is also a valid update. */
  lemma UpdateRulesWeaker(body: Doc)
    ensures ValidUpdate(map[])
    ensures ValidCreate(body) ==> ValidUpdate(body)
  {
  }

  /** The create rules pin down each required property: the name's length, the age's range,
      and the email's `@`. */
  lemma CreateRulesBound(body: Doc)
    requires ValidCreate(body)
    ensures body["name"].Str? && 2 <= |body["name"].s| <= 50
    ensures body["age"].Num? && 0 <= body["age"].n <= 120
    ensures body["email"].Str? && '@' in body["email"].s
  {
    var s := body["email"].s;
    var at :| 0 < at < |s| && s[at] == '@';
  }

  /** An email the rules accept is never blank, so it survives the schema's trim. */
  lemma {:induction false} EmailNotBlank(s: string)
    requires IsEmail(s)
    ensures Trim(ToLower(s)) != ""
  {
    var at :| 0 < at < |s| && s[at] == '@';
    ToLowerAt(s, at);
    TrimEmptyIffBlank(ToLower(s));
    assert !IsSpace(ToLower(s)[at]);
  }

  /** A body the create rules accept passes the schema's save validators too, provided its
      name is not all whitespace: the length rule counts characters before the trim. */
  lemma CreateBodyPassesSchema(body: Doc)
    requires ValidCreate(body)
    requires Trim(body["name"].s) != ""
    ensures Validate(Build(User, body)) == []
  {
    assert IsEmail(body["email"].s) && body["age"].Num? && MinAge <= body["age"].n <= MaxAge;
    EmailNotBlank(body["email"].s);
    StoredFieldsPass(body);
  }

  /** A name and an email that are not blank once normalised, and an age in range, pass the
      schema once the setters have run. */
  lemma StoredFieldsPass(body: Doc)
    requires "name" in body && body["name"].Str? && Trim(body["name"].s) != ""
    requires "email" in body && body["email"].Str? && Trim(ToLower(body["email"].s)) != ""
    requires "age" in body && body["age"].Num? && MinAge <= body["age"].n <= MaxAge
    ensures Validate(Build(User, body)) == []
  {
    NameStored(body);
    EmailStored(body);
    AgeStored(body);
    ValidateAccepts(Build(User, body));
  }


  /** A body holding no `null` that the update rules accept passes the update validators
      exactly when a name it gives is not blank: the length rule counts characters before the
      trim, while an accepted email is never blank. */
  lemma UpdateBodyPassesSchema(body: Doc)
    requires ValidUpdate(body)
    requires forall k :: k in body ==> !body[k].Null? && !body[k].Undefined?
    ensures ValidateUpdate(Cast(User, body)) == [] <==> ("name" in body ==> Trim(body["name"].s) != "")
  {
    var patch := Cast(User, body);
    PatchEmailAndAgePass(body);
    if "name" in body {
      PatchNameRequired(body);
    }
  }

  /** The email and age of an accepted update body never fail the update validators. */
  lemma PatchEmailAndAgePass(body: Doc)
    requires ValidUpdate(body)
    requires forall k :: k in body ==> !body[k].Null? && !body[k].Undefined?
    ensures var patch := Cast(User, body);
      && ("email" in patch ==> !RequiredFails(patch, "email"))
      && ("age" in patch ==> !RequiredFails(patch, "age") && patch["age"].Num?
                             && MinAge <= patch["age"].n <= MaxAge)
  {
    if "email" in body {
      PatchEmailPasses(body);
    }
    if "age" in body {
      PatchAgePasses(body);
    }
  }

  lemma PatchEmailPasses(body: Doc)
    requires "email" in body && EmailOk(body["email"])
    ensures var patch := Cast(User, body); "email" in patch && !RequiredFails(patch, "email")
  {
    var patch := Cast(User, body);
    EmailNotBlank(body["email"].s);
    assert patch["email"] == Str(Trim(ToLower(body["email"].s)));
  }

  lemma PatchAgePasses(body: Doc)
    requires "age" in body && AgeOk(body["age"])
    ensures var patch := Cast(User, body);
      "age" in patch && !RequiredFails(patch, "age") && patch["age"] == body["age"]
  {
    var patch := Cast(User, body);
    assert patch["age"] == body["age"];
  }

  /** A given name fails `required` on update exactly when it trims to `''`. */
  lemma PatchNameRequired(body: Doc)
    requires "name" in body && body["name"].Str?
    ensures var patch := Cast(User, body);
      "name" in patch && (RequiredFails(patch, "name") <==> Trim(body["name"].s) == "")
  {
    var patch := Cast(User, body);
    assert patch["name"] == Str(Trim(body["name"].s));
  }

  /** A three-space name passes the update rules and is refused by the update validators. */
  lemma BlankNameUpdateRejected()
    ensures ValidUpdate(map["name" := Str("   ")])
    ensures ValidateUpdate(Cast(User, map["name" := Str("   ")])) != []
  {
    NameOnlyUpdateAccepted("   ");
    ThreeSpacesTrimEmpty();
    CastSingle(User, "name", Str("   "));
    assert User.setter("name", Str("   ")) == Str("");
    EmptyNameRefused();
  }

  /** `@IsOptional` lets a `null` at `name`, `email` or `age` through the update rules,
      and the update validators then refuse it as missing. */
  lemma NullFieldUpdateRejected(path: string)
    requires path in {"name", "email", "age"}
    ensures ValidUpdate(map[path := Null])
    ensures ValidateUpdate(Cast(User, map[path := Null])) != []
  {
    var body := map[path := Null];
    assert body.Keys == {path};
    assert Omitted(body, "name") && Omitted(body, "email") && Omitted(body, "age");
    assert Omitted(body, "isActive") && Omitted(body, "tags");
    CastSingle(User, path, Null);
    assert RequiredFails(map[path := Null], path);
  }

  /** A patch naming only a name of acceptable length passes the update rules. */
  lemma NameOnlyUpdateAccepted(name: string)
    requires MinNameLength <= |name| <= MaxNameLength
    ensures ValidUpdate(map["name" := Str(name)])
  {
    var body := map["name" := Str(name)];
    assert body.Keys == {"name"};
    assert Omitted(body, "email") && Omitted(body, "age") && Omitted(body, "isActive") && Omitted(body, "tags");
  }

  /** An update setting the name to `''` fails `required`. */
  lemma EmptyNameRefused()
    ensures ValidateUpdate(map["name" := Str("")]) != []
  {
    assert RequiredFails(map["name" := Str("")], "name");
  }

  lemma ThreeSpacesTrimEmpty()
    ensures Trim("   ") == ""
  {
    assert forall i :: 0 <= i < |"   "| ==> IsSpace("   "[i]);
    TrimEmptyIffBlank("   ");
  }

  /** The sample address `a@b.co` is an email. */
  lemma SampleEmailValid()
    ensures IsEmail("a@b.co")
  {
    var e := "a@b.co";
    assert NoSpaceIn(e) by {
      forall i | 0 <= i < |e| ensures !IsSpace(e[i]) {
        assert e[i] in {'a', '@', 'b', '.', 'c', 'o'};
      }
    }
    assert e[1] == '@' && e[3] == '.';
    assert NoAtIn(e[..1]) by { assert e[..1] == "a"; }
    assert NoAtIn(e[2..]) by { assert e[2..] == "b.co"; }
  }

  /** The create rules accept a body with three-character strings of any kind as `name`. */
  lemma SampleBodyAccepted(name: string)
    requires |name| == 3
    ensures ValidCreate(map["name" := Str(name), "email" := Str("a@b.co"), "age" := Num(30)])
  {
    SampleEmailValid();
    var body := map["name" := Str(name), "email" := Str("a@b.co"), "age" := Num(30)];
    assert body.Keys == {"name", "email", "age"};
    assert body["name"] == Str(name) && body["email"] == Str("a@b.co") && body["age"] == Num(30);
    RequiredOnlyBody(body);
  }

  /** A body with exactly the three required properties, each valid, is a valid create body. */
  lemma RequiredOnlyBody(body: Doc)
    requires body.Keys == {"name", "email", "age"}
    requires NameOk(body["name"]) && EmailOk(body["email"]) && AgeOk(body["age"])
    ensures ValidCreate(body)
  {
    assert "tags" !in body;
  }

  /** A name made of white space only fails the schema's `required` once trimmed. */
  lemma BlankNameFailsSchema(body: Doc)
    requires "name" in body && body["name"].Str?
    requires forall i :: 0 <= i < |body["name"].s| ==> IsSpace(body["name"].s[i])
    ensures Validate(Build(User, body)) != []
  {
    TrimEmptyIffBlank(body["name"].s);
    BuildAt(body, "name");
    assert RequiredFails(Build(User, body), "name");
  }

  /** The length rule runs before the trim: a three-space name passes the create rules but
      fails the schema's `required`. */
  lemma BlankNamePassesRulesOnly()
    ensures ValidCreate(map["name" := Str("   "), "email" := Str("a@b.co"), "age" := Num(30)])
    ensures Validate(Build(User, map["name" := Str("   "), "email" := Str("a@b.co"), "age" := Num(30)])) != []
  {
    SampleBodyAccepted("   ");
    var body := map["name" := Str("   "), "email" := Str("a@b.co"), "age" := Num(30)];
    assert forall i :: 0 <= i < |body["name"].s| ==> IsSpace(body["name"].s[i]);
    BlankNameFailsSchema(body);
  }

  /** For the same reason " a " passes the two-character minimum and is stored as "a". */
  lemma ShortNameStoredShorter()
    ensures ValidCreate(map["name" := Str(" a "), "email" := Str("a@b.co"), "age" := Num(30)])
    ensures Build(User, map["name" := Str(" a "), "email" := Str("a@b.co"), "age" := Num(30)])["name"] == Str("a")
  {
    SampleBodyAccepted(" a ");
    var body := map["name" := Str(" a "), "email" := Str("a@b.co"), "age" := Num(30)];
    BuildName(body);
    assert Build(User, body)["name"] == Str(Trim(" a "));
    TrimPaddedLetter();
  }

  lemma TrimPaddedLetter()
    ensures Trim(" a ") == "a"
  {
    LeadingSpaceDropped();
    TrailingSpaceDropped();
  }

  lemma LeadingSpaceDropped()
    ensures TrimStart(" a ") == "a "
  {
    var s, t := " a ", "a ";
    assert s[0] == ' ' && s[1..] == t;
    TrimStartOfNonSpace(t);
  }

  lemma TrailingSpaceDropped()
    ensures TrimEnd("a ") == "a"
  {
    var t := "a ";
    assert t[1] == ' ' && t[..1] == "a";
    TrimEndOfNonSpace("a");
  }


}
