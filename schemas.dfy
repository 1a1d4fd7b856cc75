/** The zod schemas of utils/schemas.ts as acceptance rules over already-typed
    records, and `validateWithZodSchema` as a function from the issues a
    schema finds to either the data or the thrown `Error`. */
module Schemas {
  import opened Results
  import Strings

  /** A zod issue path: the keys from the root object to the failing field. */
  type Path = seq<string>

  /** One rule of a schema: whether it holds, and the path zod reports when
      it does not. */
  datatype Rule = Rule(holds: bool, path: Path)

  /** The paths of the rules that fail, in the order the schema lists them;
      this is the order of zod's issues. */
  function Failing(rules: seq<Rule>): (issues: seq<Path>)
    ensures |issues| <= |rules|
    ensures issues == [] <==> forall r :: r in rules ==> r.holds
  {
    if rules == [] then []
    else (if rules[0].holds then [] else [rules[0].path]) + Failing(rules[1..])
  }

  /** All keys of all issue paths, in order. */
  function Flatten(issues: seq<Path>): (keys: seq<string>)
  {
    if issues == [] then [] else issues[0] + Flatten(issues[1..])
  }

  /** The text of each path as `Array.prototype.toString` renders it. */
  function PathTexts(issues: seq<Path>): (texts: seq<string>)
    ensures |texts| == |issues|
  {
    if issues == [] then [] else [Strings.Join(issues[0], ',')] + PathTexts(issues[1..])
  }

  /** `errors.join(",")` where `errors` holds the issue paths. */
  function IssueMessage(issues: seq<Path>): string
  {
    Strings.Join(PathTexts(issues), ',')
  }

  /** Paths are non-empty and no key holds a comma. */
  predicate PlainPaths(issues: seq<Path>)
  {
    forall i :: 0 <= i < |issues| ==>
      |issues[i]| >= 1 && forall j :: 0 <= j < |issues[i]| ==> ',' !in issues[i][j]
  }

  /** Every rule reports a non-empty path without commas. */
  predicate PlainRules(rules: seq<Rule>)
  {
    forall r :: r in rules ==> |r.path| >= 1 && forall j :: 0 <= j < |r.path| ==> ',' !in r.path[j]
  }

  /** The failing paths of plain rules are plain. */
  lemma {:induction false} PlainFailing(rules: seq<Rule>)
    requires PlainRules(rules)
    ensures PlainPaths(Failing(rules))
  {
    if rules != [] {
      var rest := rules[1..];
      assert PlainRules(rest) by {
        forall r | r in rest ensures r in rules { }
      }
      PlainFailing(rest);
      var head := if rules[0].holds then [] else [rules[0].path];
      assert rules[0] in rules;
      assert PlainPaths(head);
      PlainAppend(head, Failing(rest));
      assert Failing(rules) == head + Failing(rest);
    }
  }

  /** Plain path lists stay plain when put one after the other. */
  lemma PlainAppend(head: seq<Path>, tail: seq<Path>)
    requires PlainPaths(head) && PlainPaths(tail)
    ensures PlainPaths(head + tail)
  {
    var issues := head + tail;
    forall i | 0 <= i < |issues|
      ensures |issues[i]| >= 1 && forall j :: 0 <= j < |issues[i]| ==> ',' !in issues[i][j]
    {
      if i >= |head| {
        assert issues[i] == tail[i - |head|];
      } else {
        assert issues[i] == head[i];
      }
    }
  }

  /** The joined text of nested paths is the join of their flattened keys. */
  lemma {:induction false} MessageFlattens(issues: seq<Path>)
    requires |issues| >= 1 && PlainPaths(issues)
    ensures IssueMessage(issues) == Strings.Join(Flatten(issues), ',')
  {
    if |issues| > 1 {
      var rest := issues[1..];
      MessageFlattens(rest);
      assert PathTexts(issues) == [Strings.Join(issues[0], ',')] + PathTexts(rest);
      assert |Flatten(rest)| >= 1 by { assert rest[0] <= Flatten(rest); }
      Strings.JoinAppend(issues[0], Flatten(rest), ',');
    } else {
      assert issues[1..] == [];
      assert PathTexts(issues) == [Strings.Join(issues[0], ',')] + PathTexts([]);
      assert IssueMessage(issues) == Strings.Join(issues[0], ',');
      assert Flatten(issues) == issues[0] + Flatten([]);
      assert Flatten(issues) == issues[0];
    }
  }

  /** The message of a non-empty list of plain issue paths splits at the commas
      back into exactly the keys of those paths, in order. */
  lemma MessageListsPaths(issues: seq<Path>)
    requires |issues| >= 1 && PlainPaths(issues)
    ensures Strings.Split(IssueMessage(issues), ',') == Flatten(issues)
  {
    MessageFlattens(issues);
    var keys := Flatten(issues);
    assert |keys| >= 1 by { assert issues[0] <= keys; }
    FlattenPlain(issues);
    Strings.SplitJoin(keys, ',');
  }

  /** The keys of plain paths hold no comma. */
  lemma {:induction false} FlattenPlain(issues: seq<Path>)
    requires PlainPaths(issues)
    ensures forall k :: 0 <= k < |Flatten(issues)| ==> ',' !in Flatten(issues)[k]
  {
    if issues != [] {
      FlattenPlain(issues[1..]);
      var keys := Flatten(issues);
      assert keys == issues[0] + Flatten(issues[1..]);
      forall k | 0 <= k < |keys| ensures ',' !in keys[k] {
        if k >= |issues[0]| {
          assert keys[k] == Flatten(issues[1..])[k - |issues[0]|];
        }
      }
    }
  }

  /** `validateWithZodSchema(schema, data)` given the issues the schema finds in
      `data`: the data when there are none, otherwise a thrown `Error` whose
      message is the failing paths joined with ",". */
  function ValidateWithZodSchema<T>(data: T, issues: seq<Path>): (r: Result<T, Thrown>)
    ensures r.Ok? <==> issues == []
    ensures r.Ok? ==> r.value == data
    ensures r.Err? ==> r.error.ErrorValue?
    ensures r.Err? && PlainPaths(issues) ==>
      Strings.Split(r.error.message, ',') == Flatten(issues)
  {
    if issues == [] then Ok(data)
    else if PlainPaths(issues) then
      MessageListsPaths(issues);
      Err(ErrorValue(IssueMessage(issues)))
    else Err(ErrorValue(IssueMessage(issues)))
  }

  /** Validation against a list of plain rules: accepted exactly when every
      rule holds, and otherwise the message's comma-separated keys are the
      keys of the failing rules' paths. */
  function ValidateRules<T>(data: T, rules: seq<Rule>): (r: Result<T, Thrown>)
    requires PlainRules(rules)
    ensures r.Ok? <==> forall x :: x in rules ==> x.holds
    ensures r.Ok? ==> r.value == data
    ensures r.Err? ==> (r.error.ErrorValue? &&
      Strings.Split(r.error.message, ',') == Flatten(Failing(rules)))
  {
    PlainFailing(rules);
    ValidateWithZodSchema(data, Failing(rules))
  }

  /** A failing key is reported exactly when a failing one-key rule names it,
      provided every rule names a single key. */
  lemma {:induction false} FailingKeys(rules: seq<Rule>)
    requires forall r :: r in rules ==> |r.path| == 1
    ensures forall f :: f in Flatten(Failing(rules)) <==> Rule(false, [f]) in rules
  {
    if rules != [] {
      var rest := rules[1..];
      assert forall r :: r in rest ==> r in rules;
      FailingKeys(rest);
      var head := if rules[0].holds then [] else [rules[0].path];
      assert Failing(rules) == head + Failing(rest);
      FlattenAppend(head, Failing(rest));
      FlattenOne(head);
      assert rules == [rules[0]] + rest;
      assert |rules[0].path| == 1 by { assert rules[0] in rules; }
      forall f ensures f in Flatten(Failing(rules)) <==> Rule(false, [f]) in rules {
        assert f in Flatten(head) <==> rules[0] == Rule(false, [f]);
        assert Rule(false, [f]) in rules <==> rules[0] == Rule(false, [f]) || Rule(false, [f]) in rest;
      }
    }
  }

  // ---------------------------------------------------------------- profile

  /** The fields of the profile form. */
  datatype ProfileForm = ProfileForm(firstName: string, lastName: string, username: string)

  /** `profileSchema`: every name field is at least two UTF-16 code units
      long, as zod measures `.min(2)` with JavaScript's `length`. */
  predicate ProfileValid(p: ProfileForm)
  {
    Strings.Utf16Length(p.firstName) >= 2 && Strings.Utf16Length(p.lastName) >= 2
    && Strings.Utf16Length(p.username) >= 2
  }

  /** The rules of `profileSchema`, in field order. */
  function ProfileRules(p: ProfileForm): seq<Rule>
  {
    [ Rule(Strings.Utf16Length(p.firstName) >= 2, ["firstName"]),
      Rule(Strings.Utf16Length(p.lastName) >= 2, ["lastName"]),
      Rule(Strings.Utf16Length(p.username) >= 2, ["username"]) ]
  }

  /** The profile rules are plain one-key rules that all hold exactly when
      the profile is valid, and each failing one names a short field. */
  lemma ProfileRulesFacts(p: ProfileForm)
    ensures PlainRules(ProfileRules(p))
    ensures forall r :: r in ProfileRules(p) ==> |r.path| == 1
    ensures (forall r :: r in ProfileRules(p) ==> r.holds) <==> ProfileValid(p)
    ensures forall f :: Rule(false, [f]) in ProfileRules(p) <==>
        (f == "firstName" && Strings.Utf16Length(p.firstName) < 2) ||
        (f == "lastName" && Strings.Utf16Length(p.lastName) < 2) ||
        (f == "username" && Strings.Utf16Length(p.username) < 2)
  {
    var rules := ProfileRules(p);
    assert ',' !in "firstName" && ',' !in "lastName" && ',' !in "username";
    forall r | r in rules
      ensures r == rules[0] || r == rules[1] || r == rules[2]
    {
      var i :| 0 <= i < 3 && rules[i] == r;
    }
    assert rules[0] in rules && rules[1] in rules && rules[2] in rules;
  }

  /** `validateWithZodSchema(profileSchema, p)`: accepted exactly when each name
      is two code units or longer; otherwise the message lists exactly the
      short fields, once each and in field order. */
  function ValidateProfile(p: ProfileForm): (r: Result<ProfileForm, Thrown>)
    ensures r.Ok? <==> ProfileValid(p)
    ensures r.Ok? ==> r.value == p
    ensures r.Err? ==> (r.error.ErrorValue? &&
      forall f :: f in Strings.Split(r.error.message, ',') <==>
        (f == "firstName" && Strings.Utf16Length(p.firstName) < 2) ||
        (f == "lastName" && Strings.Utf16Length(p.lastName) < 2) ||
        (f == "username" && Strings.Utf16Length(p.username) < 2))
    ensures r.Err? ==> (Strings.Split(r.error.message, ',') ==
      (if Strings.Utf16Length(p.firstName) >= 2 then [] else ["firstName"])
      + (if Strings.Utf16Length(p.lastName) >= 2 then [] else ["lastName"])
      + (if Strings.Utf16Length(p.username) >= 2 then [] else ["username"]))
  {
    var rules := ProfileRules(p);
    ProfileRulesFacts(p);
    FailingKeys(rules);
    FlattenFailing3(rules);
    ValidateRules(p, rules)
  }
  
  // ------------------------------------------------------------------ image

  /** The largest accepted file size, 1 MiB. */
  const MaxImageBytes: int := 1024 * 1024

  /** The file fields `imageSchema` inspects. */
  datatype ImageFile = ImageFile(size: int, mimeType: string, name: string, lastModified: Option<int>)

  /** The object `imageSchema` validates; its `image` key is optional. */
  datatype ImagePayload = ImagePayload(image: Option<ImageFile>)

  /** `imageSchema`: an absent image is accepted; a present one needs a size of
      at most 1 MiB, a type starting with "image/" and a non-empty name. */
  predicate ImageValid(x: ImagePayload)
  {
    match x.image
    case None => true
    case Some(f) => f.size <= MaxImageBytes && Strings.StartsWith(f.mimeType, "image/") && |f.name| > 0
  }

  /** The rules of `imageSchema`; an absent image has none. */
  function ImageRules(x: ImagePayload): seq<Rule>
  {
    match x.image
    case None => []
    case Some(f) =>
      [ Rule(f.size <= MaxImageBytes, ["image", "size"]),
        Rule(Strings.StartsWith(f.mimeType, "image/"), ["image", "type"]),
        Rule(|f.name| > 0, ["image", "name"]) ]
  }

  /** `validateWithZodSchema(imageSchema, x)`: on failure the message repeats
      "image" before each failing key, as nested paths print. */
  function ValidateImage(x: ImagePayload): (r: Result<ImagePayload, Thrown>)
    ensures r.Ok? <==> ImageValid(x)
    ensures r.Ok? ==> r.value == x
    ensures r.Err? ==> (x.image.Some? && r.error.ErrorValue? &&
      Strings.Split(r.error.message, ',') ==
        (if x.image.value.size <= MaxImageBytes then [] else ["image", "size"])
        + (if Strings.StartsWith(x.image.value.mimeType, "image/") then [] else ["image", "type"])
        + (if |x.image.value.name| > 0 then [] else ["image", "name"]))
  {
    var rules := ImageRules(x);
    ImageRulesFacts(x);
    if x.image.Some? then
      FlattenFailing3(rules);
      ValidateRules(x, rules)
    else ValidateRules(x, rules)
  }

  /** The image rules are plain and all hold exactly when the image is valid. */
  lemma ImageRulesFacts(x: ImagePayload)
    ensures PlainRules(ImageRules(x))
    ensures (forall r :: r in ImageRules(x) ==> r.holds) <==> ImageValid(x)
  {
    if x.image.Some? {
      var rules := ImageRules(x);
      assert ',' !in "image" && ',' !in "size" && ',' !in "type" && ',' !in "name";
      forall r | r in rules ensures |r.path| >= 1 && forall j :: 0 <= j < |r.path| ==> ',' !in r.path[j] {
        var i :| 0 <= i < 3 && rules[i] == r;
      }
      if forall r :: r in rules ==> r.holds {
        assert rules[0] in rules && rules[1] in rules && rules[2] in rules;
      }
    }
  }

  /** The reported keys of a list of three rules. */
  lemma FlattenFailing3(rules: seq<Rule>)
    requires |rules| == 3
    ensures Flatten(Failing(rules)) ==
      (if rules[0].holds then [] else rules[0].path)
      + (if rules[1].holds then [] else rules[1].path)
      + (if rules[2].holds then [] else rules[2].path)
  {
    var a := if rules[0].holds then [] else [rules[0].path];
    var b := if rules[1].holds then [] else [rules[1].path];
    var c := if rules[2].holds then [] else [rules[2].path];
    assert rules[1..][1..][1..] == [];
    assert Failing(rules[2..]) == c + Failing([]) by { assert rules[2..][1..] == []; }
    assert Failing(rules[1..]) == b + Failing(rules[2..]) by { assert rules[1..][1..] == rules[2..]; }
    assert Failing(rules) == a + Failing(rules[1..]);
    assert Failing(rules) == a + b + c;
    FlattenAppend(a + b, c);
    FlattenAppend(a, b);
    FlattenOne(a);
    FlattenOne(b);
    FlattenOne(c);
  }

  /** The reported keys of a list of two rules. */
  lemma FlattenFailing2(rules: seq<Rule>)
    requires |rules| == 2
    ensures Flatten(Failing(rules)) ==
      (if rules[0].holds then [] else rules[0].path)
      + (if rules[1].holds then [] else rules[1].path)
  {
    var a := if rules[0].holds then [] else [rules[0].path];
    var b := if rules[1].holds then [] else [rules[1].path];
    assert Failing(rules[1..]) == b + Failing([]) by { assert rules[1..][1..] == []; }
    assert Failing(rules) == a + b;
    FlattenAppend(a, b);
    FlattenOne(a);
    FlattenOne(b);
  }

  /** The failing paths of two rule lists, one after the other. */
  lemma {:induction false} FailingAppend(a: seq<Rule>, b: seq<Rule>)
    ensures Failing(a + b) == Failing(a) + Failing(b)
  {
    if a != [] {
      var head := if a[0].holds then [] else [a[0].path];
      assert (a + b)[0] == a[0];
      assert (a + b)[1..] == a[1..] + b;
      FailingAppend(a[1..], b);
      assert Failing(a + b) == head + Failing(a[1..] + b);
      assert Failing(a) == head + Failing(a[1..]);
    } else {
      assert a + b == b;
    }
  }

  /** The reported keys of rules listed in three groups are the groups'
      reported keys in order. */
  lemma FlattenFailingGroups(a: seq<Rule>, b: seq<Rule>, c: seq<Rule>)
    ensures Flatten(Failing(a + b + c)) ==
      Flatten(Failing(a)) + Flatten(Failing(b)) + Flatten(Failing(c))
  {
    FailingAppend(a + b, c);
    FailingAppend(a, b);
    FlattenAppend(Failing(a) + Failing(b), Failing(c));
    FlattenAppend(Failing(a), Failing(b));
  }

  /** Concatenation is associative. */
  lemma ConcatAssoc<T>(u: seq<T>, v: seq<T>, w: seq<T>)
    ensures u + (v + w) == u + v + w
  {
  }

  /** Flattening at most one path gives its keys. */
  lemma FlattenOne(a: seq<Path>)
    requires |a| <= 1
    ensures Flatten(a) == if a == [] then [] else a[0]
  {
    if a != [] {
      assert a[1..] == [];
      assert Flatten(a) == a[0] + Flatten([]);
    }
  }

  /** Flattening distributes over concatenation. */
  lemma {:induction false} FlattenAppend(a: seq<Path>, b: seq<Path>)
    ensures Flatten(a + b) == Flatten(a) + Flatten(b)
  {
    if a == [] {
      assert a + b == b;
    } else {
      var ab := a + b;
      assert ab[0] == a[0];
      assert ab[1..] == a[1..] + b;
      FlattenAppend(a[1..], b);
      calc {
        Flatten(ab);
        ab[0] + Flatten(ab[1..]);
        a[0] + (Flatten(a[1..]) + Flatten(b));
        (a[0] + Flatten(a[1..])) + Flatten(b);
        Flatten(a) + Flatten(b);
      }
    }
  }

  // --------------------------------------------------------------- property

  /** The fields of the property form, numbers already parsed. */
  datatype PropertyForm = PropertyForm(
    name: string, tagline: string, price: int, category: string,
    description: string, country: string, guests: int, bedrooms: int,
    beds: int, baths: int, amenities: string)

  /** `description.split(" ").length`: one more than the number of spaces. */
  function WordCount(description: string): (n: nat)
    ensures n == Strings.Count(description, ' ') + 1
  {
    |Strings.Split(description, ' ')|
  }

  /** The description rule: between 10 and 1000 words, inclusive. */
  predicate DescriptionValid(description: string)
  {
    10 <= WordCount(description) <= 1000
  }

  /** A text field bounded to 2..100 UTF-16 code units, JavaScript's
      `length`. */
  predicate ShortText(s: string)
  {
    2 <= Strings.Utf16Length(s) <= 100
  }

  /** `propertySchema`: bounded name and tagline, a description of 10..1000
      words, non-negative integer counts and price; category, country and
      amenities are free text. */
  predicate PropertyValid(p: PropertyForm)
  {
    ShortText(p.name) && ShortText(p.tagline) && p.price >= 0
    && DescriptionValid(p.description)
    && p.guests >= 0 && p.bedrooms >= 0 && p.beds >= 0 && p.baths >= 0
  }

  /** The rules of `propertySchema`, in field order; the free-text fields
      bring none. */
  function PropertyRules(p: PropertyForm): seq<Rule>
  {
    [ Rule(ShortText(p.name), ["name"]),
      Rule(ShortText(p.tagline), ["tagline"]),
      Rule(p.price >= 0, ["price"]),
      Rule(DescriptionValid(p.description), ["description"]),
      Rule(p.guests >= 0, ["guests"]),
      Rule(p.bedrooms >= 0, ["bedrooms"]),
      Rule(p.beds >= 0, ["beds"]),
      Rule(p.baths >= 0, ["baths"]) ]
  }

  /** The property rules report plain paths. */
  lemma PropertyRulesPlain(p: PropertyForm)
    ensures PlainRules(PropertyRules(p))
  {
    var keys := ["name", "tagline", "price", "description", "guests", "bedrooms", "beds", "baths"];
    assert forall i :: 0 <= i < |keys| ==> ',' !in keys[i];
    forall r | r in PropertyRules(p)
      ensures |r.path| >= 1 && forall j :: 0 <= j < |r.path| ==> ',' !in r.path[j]
    {
      var i :| 0 <= i < 8 && PropertyRules(p)[i] == r;
      assert r.path == [keys[i]];
    }
  }

  /** Each property rule names a single key. */
  lemma PropertyRulesSingleKey(p: PropertyForm)
    ensures forall r :: r in PropertyRules(p) ==> |r.path| == 1
  {
    var rules := PropertyRules(p);
    forall r | r in rules ensures |r.path| == 1 {
      var i :| 0 <= i < 8 && rules[i] == r;
    }
  }

  /** The property rules all hold exactly when the form is valid. */
  lemma PropertyRulesAccept(p: PropertyForm)
    ensures (forall r :: r in PropertyRules(p) ==> r.holds) <==> PropertyValid(p)
  {
    AllHold8(PropertyRules(p));
  }

  /** Eight rules all hold exactly when each of them holds. */
  lemma AllHold8(rules: seq<Rule>)
    requires |rules| == 8
    ensures (forall r :: r in rules ==> r.holds) <==>
      rules[0].holds && rules[1].holds && rules[2].holds && rules[3].holds
      && rules[4].holds && rules[5].holds && rules[6].holds && rules[7].holds
  {
    if rules[0].holds && rules[1].holds && rules[2].holds && rules[3].holds
      && rules[4].holds && rules[5].holds && rules[6].holds && rules[7].holds
    {
      forall r | r in rules ensures r.holds {
        var i :| 0 <= i < 8 && rules[i] == r;
      }
    } else {
      assert rules[0] in rules && rules[1] in rules && rules[2] in rules && rules[3] in rules;
      assert rules[4] in rules && rules[5] in rules && rules[6] in rules && rules[7] in rules;
    }
  }

  /** `validateWithZodSchema(propertySchema, p)`: accepted exactly when the
      property rules hold; on failure the message names exactly the fields
      that broke a rule. */
  function ValidatePropertyForm(p: PropertyForm): (r: Result<PropertyForm, Thrown>)
    ensures r.Ok? <==> PropertyValid(p)
    ensures r.Ok? ==> r.value == p
    ensures r.Err? ==> (r.error.ErrorValue? &&
      forall f :: f in Strings.Split(r.error.message, ',') <==> Rule(false, [f]) in PropertyRules(p))
    ensures r.Err? ==> (Strings.Split(r.error.message, ',') ==
      (if ShortText(p.name) then [] else ["name"])
      + (if ShortText(p.tagline) then [] else ["tagline"])
      + (if p.price >= 0 then [] else ["price"])
      + (if DescriptionValid(p.description) then [] else ["description"])
      + (if p.guests >= 0 then [] else ["guests"])
      + (if p.bedrooms >= 0 then [] else ["bedrooms"])
      + (if p.beds >= 0 then [] else ["beds"])
      + (if p.baths >= 0 then [] else ["baths"]))
  {
    var rules := PropertyRules(p);
    PropertyRulesPlain(p);
    PropertyRulesSingleKey(p);
    PropertyRulesAccept(p);
    FailingKeys(rules);
    PropertyKeysInOrder(p);
    ValidateRules(p, rules)
  }

  /** The property rules report their failing keys in field order. */
  lemma PropertyKeysInOrder(p: PropertyForm)
    ensures Flatten(Failing(PropertyRules(p))) ==
      (if ShortText(p.name) then [] else ["name"])
      + (if ShortText(p.tagline) then [] else ["tagline"])
      + (if p.price >= 0 then [] else ["price"])
      + (if DescriptionValid(p.description) then [] else ["description"])
      + (if p.guests >= 0 then [] else ["guests"])
      + (if p.bedrooms >= 0 then [] else ["bedrooms"])
      + (if p.beds >= 0 then [] else ["beds"])
      + (if p.baths >= 0 then [] else ["baths"])
  {
    FlattenFailing8(PropertyRules(p));
  }

  /** The reported keys of a list of eight rules. */
  lemma FlattenFailing8(rules: seq<Rule>)
    requires |rules| == 8
    ensures Flatten(Failing(rules)) ==
      (if rules[0].holds then [] else rules[0].path)
      + (if rules[1].holds then [] else rules[1].path)
      + (if rules[2].holds then [] else rules[2].path)
      + (if rules[3].holds then [] else rules[3].path)
      + (if rules[4].holds then [] else rules[4].path)
      + (if rules[5].holds then [] else rules[5].path)
      + (if rules[6].holds then [] else rules[6].path)
      + (if rules[7].holds then [] else rules[7].path)
  {
    var a, b, c := rules[..3], rules[3..6], rules[6..];
    assert rules == a + b + c;
    assert a[0] == rules[0] && a[1] == rules[1] && a[2] == rules[2];
    assert b[0] == rules[3] && b[1] == rules[4] && b[2] == rules[5];
    assert c[0] == rules[6] && c[1] == rules[7];
    FlattenFailingGroups(a, b, c);
    FlattenFailing3(a);
    FlattenFailing3(b);
    FlattenFailing2(c);
    var x := Flatten(Failing(a));
    var kd := if rules[3].holds then [] else rules[3].path;
    var ke := if rules[4].holds then [] else rules[4].path;
    var kf := if rules[5].holds then [] else rules[5].path;
    var kg := if rules[6].holds then [] else rules[6].path;
    var kh := if rules[7].holds then [] else rules[7].path;
    ConcatAssoc(x, kd + ke, kf);
    ConcatAssoc(x, kd, ke);
    ConcatAssoc(x + kd + ke + kf, kg, kh);
  }

  /** Category, country and amenities accept any string: changing them never
      changes whether a property form is accepted. */
  lemma FreeTextFields(p: PropertyForm, category: string, country: string, amenities: string)
    ensures PropertyValid(p) <==>
      PropertyValid(p.(category := category, country := country, amenities := amenities))
  {
  }

  /** The description is accepted exactly when it holds 9 to 999 spaces: 9 and
      1001 words are rejected, 10 and 1000 accepted. */
  lemma DescriptionBySpaces(description: string)
    ensures DescriptionValid(description) <==> 9 <= Strings.Count(description, ' ') <= 999
  {
  }

  /** Examples of the word count: the empty description is one word, and two
      spaces in a row make an empty word. */
  lemma WordCountExamples()
    ensures WordCount("") == 1
    ensures WordCount("a  b") == 3
  {
    assert Strings.Count("a  b", ' ') == 2 by {
      assert "a  b"[1..] == "  b";
      assert "  b"[1..] == " b";
      assert " b"[1..] == "b";
      assert "b"[1..] == "";
    }
  }

  /** Example of the failure message: nested image paths print each key, so a
      too-large file without a name gives "image,size,image,name". */
  lemma NestedMessageExample()
    ensures IssueMessage([["image", "size"], ["image", "name"]]) == "image,size,image,name"
  {
    var issues: seq<Path> := [["image", "size"], ["image", "name"]];
    assert PathTexts(issues) == ["image,size", "image,name"] by {
      assert issues[1..] == [["image", "name"]];
      assert issues[1..][1..] == [];
      assert Strings.Join(["image", "size"], ',') == "image" + [','] + "size" by {
        assert ["image", "size"][1..] == ["size"];
      }
      assert Strings.Join(["image", "name"], ',') == "image" + [','] + "name" by {
        assert ["image", "name"][1..] == ["name"];
      }
      assert "image" + [','] + "size" == "image,size";
      assert "image" + [','] + "name" == "image,name";
      assert PathTexts(issues[1..]) == ["image,name"] + PathTexts([]);
      assert PathTexts(issues) == ["image,size"] + PathTexts(issues[1..]);
    }
    var texts := ["image,size", "image,name"];
    assert Strings.Join(texts, ',') == "image,size" + [','] + "image,name" by {
      assert texts[1..] == ["image,name"];
    }
  }
}
