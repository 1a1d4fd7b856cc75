/** The server actions of utils/actions.ts: the identity check, the error
    renderer, the four mutations over an abstract backend (the profile and
    property tables, the identity provider's `hasProfile` flag and the upload
    service), and the listing query as a pure function over the property
    table. */
module Actions {
  import opened Results
  import Strings
  import opened Schemas

  // ------------------------------------------------------------- constants

  const NotLoggedIn: string := "You must to logged in to access this route"
  const LoginToCreate: string := "Please login to create a profile"
  const GenericError: string := "An error occurred"
  const ProfileUpdated: string := "update profile action"
  const ImageUpdated: string := "Profile image updated successfully"
  const HomePath: string := "/"
  const ProfilePath: string := "/profile"
  const CreateProfilePath: string := "/profile/create"

  /** What the runtime throws on `user.emailAddresses[0].emailAddress` when the
      user has no e-mail address. */
  const MissingEmail: string := "Cannot read properties of undefined (reading 'emailAddress')"
  /** What the runtime throws on `file.size` when the form has no "image" entry. */
  const MissingFile: string := "Cannot read properties of null (reading 'size')"
  /** The database's error for a second profile with the same identity id. */
  const DuplicateProfile: string := "Unique constraint failed on the fields: (`clerkId`)"

  // --------------------------------------------------------------- records

  /** The signed-in identity as the identity provider reports it. */
  datatype User = User(id: string, emailAddresses: seq<string>, imageUrl: Option<string>)

  /** A row of the profile table. */
  datatype Profile = Profile(
    clerkId: string, email: string, profileImage: string,
    firstName: string, lastName: string, username: string)

  /** A row of the property table. */
  datatype Property = Property(
    id: string, name: string, tagline: string, price: int, category: string,
    description: string, country: string, guests: int, bedrooms: int,
    beds: int, baths: int, amenities: string, image: string,
    profileId: string, createdAt: int)

  /** An uploaded file's metadata. */
  datatype File = File(size: int, mimeType: string, name: string, lastModified: int)

  /** What an action hands back to the page: a `{ message }` object, a
      redirect, or an exception that escapes the action. */
  datatype Response = Message(message: string) | Redirect(location: string) | Raised(error: Thrown)

  /** What `getAuthUser` yields. */
  datatype AuthOutcome = Authenticated(user: User) | AuthRedirect(location: string) | AuthFailed(error: Thrown)

  /** What `fetchProfile` yields. */
  datatype ProfileLookup = Found(profile: Profile) | LookupRedirect(location: string) | LookupFailed(error: Thrown)

  /** The projection the listing query selects. */
  datatype PropertySummary = PropertySummary(
    id: string, name: string, image: string, tagline: string, country: string, price: int)

  // ------------------------------------------------------------ pure steps

  /** `renderError`: an `Error`'s own message, a fixed text for anything else. */
  function RenderError(e: Thrown): (message: string)
    ensures e.ErrorValue? ==> message == e.message
    ensures !e.ErrorValue? ==> message == GenericError
  {
    match e
    case ErrorValue(m) => m
    case NonError => GenericError
  }

  /** The object the image actions hand to `imageSchema`. */
  function ImageOf(f: File): ImagePayload
  {
    ImagePayload(Some(ImageFile(f.size, f.mimeType, f.name, Some(f.lastModified))))
  }

  /** The profile row `createProfileAction` writes. */
  function NewProfile(user: User, form: ProfileForm): Profile
    requires |user.emailAddresses| > 0
  {
    Profile(user.id, user.emailAddresses[0],
            match user.imageUrl case Some(u) => u case None => "",
            form.firstName, form.lastName, form.username)
  }

  /** A profile row after `db.profile.update` with the validated names. */
  function WithNames(p: Profile, form: ProfileForm): Profile
  {
    p.(firstName := form.firstName, lastName := form.lastName, username := form.username)
  }

  /** The property row `createPropertyAction` writes; `id` and `createdAt`
      are the database's defaults. */
  function NewProperty(form: PropertyForm, image: string, profileId: string,
                       id: string, createdAt: int): Property
  {
    Property(id, form.name, form.tagline, form.price, form.category,
             form.description, form.country, form.guests, form.bedrooms,
             form.beds, form.baths, form.amenities, image, profileId, createdAt)
  }

  // ------------------------------------------------------------- backend

  /** The external state the actions read and write. */
  class Backend {
    /** The profile table, keyed by its unique `clerkId` column. */
    var profiles: map<string, Profile>
    /** The property table in insertion order. */
    var properties: seq<Property>
    /** Identity ids whose private metadata has `hasProfile` set. */
    var hasProfile: set<string>
    /** Every file handed to the upload service, in call order. */
    var uploads: seq<File>

    /** Each profile sits under its own identity id (so there is at most one
        profile per identity), every flagged identity has a profile, and every
        property belongs to an existing profile. */
    ghost predicate Valid()
      reads this
    {
      && (forall k :: k in profiles ==> profiles[k].clerkId == k)
      && hasProfile <= profiles.Keys
      && (forall i :: 0 <= i < |properties| ==> properties[i].profileId in profiles)
    }

    constructor ()
      ensures Valid()
      ensures profiles == map[] && properties == [] && hasProfile == {} && uploads == []
    {
      profiles := map[];
      properties := [];
      hasProfile := {};
      uploads := [];
    }

    /** `getAuthUser`: an error without a signed-in user, a redirect to profile
        creation when the user has no profile flag, the user otherwise. */
    method GetAuthUser(current: Option<User>) returns (a: AuthOutcome)
      ensures current.None? ==> a == AuthFailed(ErrorValue(NotLoggedIn))
      ensures current.Some? && current.value.id !in hasProfile ==> a == AuthRedirect(CreateProfilePath)
      ensures current.Some? && current.value.id in hasProfile ==> a == Authenticated(current.value)
    {
      if current.None? {
        return AuthFailed(ErrorValue(NotLoggedIn));
      }
      var user := current.value;
      if user.id !in hasProfile {
        return AuthRedirect(CreateProfilePath);
      }
      return Authenticated(user);
    }

    /** `fetchProfileImage`: nothing without a signed-in user, otherwise the
        `profileImage` of that user's profile if there is one. */
    method FetchProfileImage(current: Option<User>) returns (image: Option<string>)
      ensures current.None? ==> image.None?
      ensures current.Some? ==>
        image == if current.value.id in profiles then Some(profiles[current.value.id].profileImage) else None
    {
      if current.None? {
        return None;
      }
      var user := current.value;
      if user.id in profiles {
        image := Some(profiles[user.id].profileImage);
      } else {
        image := None;
      }
    }

    /** `fetchProfile`: after `getAuthUser`, the caller's profile, or a
        redirect to profile creation when the table has none for them. */
    method FetchProfile(current: Option<User>) returns (r: ProfileLookup)
      ensures current.None? ==> r == LookupFailed(ErrorValue(NotLoggedIn))
      ensures current.Some? && current.value.id !in hasProfile ==> r == LookupRedirect(CreateProfilePath)
      ensures current.Some? && current.value.id in hasProfile ==>
        r == if current.value.id in profiles then Found(profiles[current.value.id])
             else LookupRedirect(CreateProfilePath)
      ensures Valid() && r.Found? ==> r.profile.clerkId == current.value.id
    {
      var auth := GetAuthUser(current);
      match auth {
        case AuthFailed(e) => r := LookupFailed(e);
        case AuthRedirect(to) => r := LookupRedirect(to);
        case Authenticated(user) =>
          if user.id in profiles {
            r := Found(profiles[user.id]);
          } else {
            r := LookupRedirect(CreateProfilePath);
          }
      }
    }

    /** The upload service: records the call and returns its outcome. */
    method UploadImage(file: File, upload: File -> Result<string, Thrown>) returns (r: Result<string, Thrown>)
      modifies this
      ensures r == upload(file)
      ensures uploads == old(uploads) + [file]
      ensures profiles == old(profiles) && properties == old(properties) && hasProfile == old(hasProfile)
    {
      uploads := uploads + [file];
      r := upload(file);
    }

    /** `createProfileAction`: with a signed-in user and a valid form, writes
        one profile for that identity, then sets its `hasProfile` flag, then
        redirects home; every failure returns `{ message }` and writes nothing. */
    method CreateProfileAction(current: Option<User>, form: ProfileForm) returns (r: Response)
      requires Valid()
      modifies this
      ensures Valid()
      ensures current.None? ==> r == Message(LoginToCreate)
      ensures current.Some? && !ProfileValid(form) ==>
        r == Message(RenderError(ValidateProfile(form).error))
      ensures current.Some? && ProfileValid(form) && current.value.emailAddresses == [] ==>
        r == Message(MissingEmail)
      ensures current.Some? && ProfileValid(form) && current.value.emailAddresses != [] &&
              current.value.id in old(profiles) ==>
        r == Message(DuplicateProfile)
      ensures r.Redirect? <==>
        current.Some? && ProfileValid(form) && current.value.emailAddresses != [] &&
        current.value.id !in old(profiles)
      ensures r.Redirect? ==>
        r.location == HomePath &&
        profiles == old(profiles)[current.value.id := NewProfile(current.value, form)] &&
        hasProfile == old(hasProfile) + {current.value.id} &&
        properties == old(properties) && uploads == old(uploads)
      ensures !r.Redirect? ==> r.Message? && unchanged(this)
    {
      if current.None? {
        return Message(LoginToCreate);
      }
      var user := current.value;
      var validated := ValidateProfile(form);
      if validated.Err? {
        return Message(RenderError(validated.error));
      }
      if user.emailAddresses == [] {
        return Message(MissingEmail);
      }
      var row := NewProfile(user, validated.value);
      if user.id in profiles {
        return Message(DuplicateProfile);
      }
      profiles := profiles[user.id := row];
      hasProfile := hasProfile + {user.id};
      r := Redirect(HomePath);
    }

    /** Two profile creations for the same identity: the first writes the
        profile and redirects, the second fails with the database's
        unique-constraint error and leaves the table as the first left it. */
    method CreateProfileTwice(user: User, form: ProfileForm) returns (first: Response, second: Response)
      requires Valid()
      requires ProfileValid(form) && user.emailAddresses != [] && user.id !in profiles
      modifies this
      ensures Valid()
      ensures first == Redirect(HomePath)
      ensures second == Message(DuplicateProfile)
      ensures profiles == old(profiles)[user.id := NewProfile(user, form)]
    {
      first := CreateProfileAction(Some(user), form);
      second := CreateProfileAction(Some(user), form);
    }

    /** `updateProfileAction`: after `getAuthUser`, writes the validated names
        into the caller's profile and leaves every other column and row alone;
        a validation or database failure returns `{ message }` and writes
        nothing. */
    method UpdateProfileAction(current: Option<User>, form: ProfileForm) returns (r: Response, refresh: Option<string>)
      requires Valid()
      modifies this
      ensures Valid()
      ensures current.None? ==> r == Raised(ErrorValue(NotLoggedIn))
      ensures current.Some? && current.value.id !in old(hasProfile) ==> r == Redirect(CreateProfilePath)
      ensures current.Some? && current.value.id in old(hasProfile) && !ProfileValid(form) ==>
        r == Message(RenderError(ValidateProfile(form).error))
      ensures current.Some? && current.value.id in old(hasProfile) && ProfileValid(form) ==>
        var id := current.value.id;
        r == Message(ProfileUpdated) && id in old(profiles) &&
        profiles == old(profiles)[id := WithNames(old(profiles)[id], form)] &&
        refresh == Some(ProfilePath)
      ensures !(current.Some? && current.value.id in old(hasProfile) && ProfileValid(form)) ==>
        refresh == None && profiles == old(profiles)
      ensures properties == old(properties) && hasProfile == old(hasProfile) && uploads == old(uploads)
    {
      refresh := None;
      var auth := GetAuthUser(current);
      match auth {
        case AuthFailed(e) => return Raised(e), None;
        case AuthRedirect(to) => return Redirect(to), None;
        case Authenticated(user) =>
          var validated := ValidateProfile(form);
          if validated.Err? {
            return Message(RenderError(validated.error)), None;
          }
          profiles := profiles[user.id := WithNames(profiles[user.id], validated.value)];
          refresh := Some(ProfilePath);
          r := Message(ProfileUpdated);
      }
    }

    /** `updateProfileImageAction`: after `getAuthUser`, validates the file and
        only then uploads it; on a successful upload the caller's
        `profileImage` becomes exactly the returned path. A missing file, a
        rejected image or a failed upload returns `{ message }` and leaves the
        profile as it was. */
    method UpdateProfileImageAction(current: Option<User>, file: Option<File>,
                                    upload: File -> Result<string, Thrown>)
      returns (r: Response, refresh: Option<string>)
      requires Valid()
      modifies this
      ensures Valid()
      ensures current.None? ==> r == Raised(ErrorValue(NotLoggedIn))
      ensures current.Some? && current.value.id !in old(hasProfile) ==> r == Redirect(CreateProfilePath)
      ensures current.Some? && current.value.id in old(hasProfile) && file.None? ==>
        r == Message(MissingFile)
      ensures current.Some? && current.value.id in old(hasProfile) && file.Some? &&
              !ImageValid(ImageOf(file.value)) ==>
        r == Message(RenderError(ValidateImage(ImageOf(file.value)).error))
      ensures current.Some? && current.value.id in old(hasProfile) && file.Some? &&
              ImageValid(ImageOf(file.value)) ==>
        var id := current.value.id;
        uploads == old(uploads) + [file.value] &&
        match upload(file.value)
        case Err(e) =>
          r == Message(RenderError(e)) && refresh == None && profiles == old(profiles)
        case Ok(path) =>
          r == Message(ImageUpdated) && refresh == Some(ProfilePath) && id in old(profiles) &&
          profiles == old(profiles)[id := old(profiles)[id].(profileImage := path)]
      ensures !(current.Some? && current.value.id in old(hasProfile) && file.Some? &&
                ImageValid(ImageOf(file.value))) ==>
        refresh == None && profiles == old(profiles) && uploads == old(uploads)
      ensures properties == old(properties) && hasProfile == old(hasProfile)
    {
      refresh := None;
      var auth := GetAuthUser(current);
      match auth {
        case AuthFailed(e) => return Raised(e), None;
        case AuthRedirect(to) => return Redirect(to), None;
        case Authenticated(user) =>
          if file.None? {
            return Message(MissingFile), None;
          }
          var f := file.value;
          var validated := ValidateImage(ImageOf(f));
          if validated.Err? {
            return Message(RenderError(validated.error)), None;
          }
          if validated.value.image.Some? {
            var uploaded := UploadImage(f, upload);
            if uploaded.Err? {
              return Message(RenderError(uploaded.error)), None;
            }
            profiles := profiles[user.id := profiles[user.id].(profileImage := uploaded.value)];
            refresh := Some(ProfilePath);
            r := Message(ImageUpdated);
          } else {
            // The validated payload is the one built from the file, so its
            // image is present and the source's "Image validation failed"
            // branch cannot run.
            assert false;
          }
      }
    }

    /** `createPropertyAction`: after `getAuthUser`, validates the form, then
        the image, and only then uploads; on success it appends one property
        holding the validated fields, the uploaded path as `image` and the
        caller's identity id as `profileId`, and redirects home. Any failure
        after authentication returns `{ message }`, creates nothing and does
        not redirect. */
    method CreatePropertyAction(current: Option<User>, form: PropertyForm, file: Option<File>,
                                upload: File -> Result<string, Thrown>, newId: string, now: int)
      returns (r: Response)
      requires Valid()
      modifies this
      ensures Valid()
      ensures current.None? ==> r == Raised(ErrorValue(NotLoggedIn))
      ensures current.Some? && current.value.id !in old(hasProfile) ==> r == Redirect(CreateProfilePath)
      ensures current.Some? && current.value.id in old(hasProfile) && !PropertyValid(form) ==>
        r == Message(RenderError(ValidatePropertyForm(form).error))
      ensures current.Some? && current.value.id in old(hasProfile) && PropertyValid(form) &&
              file.None? ==>
        r == Message(MissingFile)
      ensures current.Some? && current.value.id in old(hasProfile) && PropertyValid(form) &&
              file.Some? && !ImageValid(ImageOf(file.value)) ==>
        r == Message(RenderError(ValidateImage(ImageOf(file.value)).error))
      ensures current.Some? && current.value.id in old(hasProfile) && PropertyValid(form) &&
              file.Some? && ImageValid(ImageOf(file.value)) ==>
        uploads == old(uploads) + [file.value] &&
        match upload(file.value)
        case Err(e) =>
          r == Message(RenderError(e)) && properties == old(properties)
        case Ok(path) =>
          r == Redirect(HomePath) &&
          properties == old(properties) + [NewProperty(form, path, current.value.id, newId, now)]
      ensures !(current.Some? && current.value.id in old(hasProfile) && PropertyValid(form) &&
                file.Some? && ImageValid(ImageOf(file.value))) ==>
        properties == old(properties) && uploads == old(uploads)
      ensures profiles == old(profiles) && hasProfile == old(hasProfile)
    {
      var auth := GetAuthUser(current);
      match auth {
        case AuthFailed(e) => return Raised(e);
        case AuthRedirect(to) => return Redirect(to);
        case Authenticated(user) =>
          var validatedFields := ValidatePropertyForm(form);
          if validatedFields.Err? {
            return Message(RenderError(validatedFields.error));
          }
          if file.None? {
            return Message(MissingFile);
          }
          var f := file.value;
          var validatedFile := ValidateImage(ImageOf(f));
          if validatedFile.Err? {
            return Message(RenderError(validatedFile.error));
          }
          if validatedFile.value.image.Some? {
            var uploaded := UploadImage(f, upload);
            if uploaded.Err? {
              return Message(RenderError(uploaded.error));
            }
            properties := properties + [NewProperty(validatedFields.value, uploaded.value, user.id, newId, now)];
          }
          r := Redirect(HomePath);
      }
    }
  }

  // ------------------------------------------------------------- listing

  /** The `where` clause of `fetchProperties`: the category filter applies only
      when a category is given, and the search must occur, ignoring case, in
      the name or in the tagline. */
  predicate Matches(p: Property, search: string, category: Option<string>)
  {
    && (category.None? || category.value == p.category)
    && (Strings.ContainsInsensitive(p.name, search) || Strings.ContainsInsensitive(p.tagline, search))
  }

  /** The rows `fetchProperties` selects, in table order: every matching row
      exactly as often as it occurs, and nothing else. */
  function Select(props: seq<Property>, search: string, category: Option<string>): (r: seq<Property>)
    ensures forall x :: multiset(r)[x] == if Matches(x, search, category) then multiset(props)[x] else 0
  {
    if props == [] then []
    else
      var rest := Select(props[1..], search, category);
      assert props == [props[0]] + props[1..];
      if Matches(props[0], search, category) then [props[0]] + rest else rest
  }

  /** Newest first: creation times never increase along the sequence. */
  predicate NewestFirst(s: seq<Property>)
  {
    forall i, j :: 0 <= i < j < |s| ==> s[i].createdAt >= s[j].createdAt
  }

  /** Places `x` into a newest-first sequence, ahead of rows no newer than it. */
  function Insert(x: Property, s: seq<Property>): (r: seq<Property>)
    requires NewestFirst(s)
    ensures NewestFirst(r)
    ensures multiset(r) == multiset(s) + multiset{x}
  {
    if s == [] || x.createdAt >= s[0].createdAt then
      [x] + s
    else
      var rest := Insert(x, s[1..]);
      InsertBehind(x, s, rest);
      [s[0]] + rest
  }

  /** Keeping the newest row of `s` in front of the insertion into the rest of
      `s` keeps the order, when `x` is older than that row. */
  lemma InsertBehind(x: Property, s: seq<Property>, rest: seq<Property>)
    requires NewestFirst(s) && s != [] && x.createdAt < s[0].createdAt
    requires NewestFirst(rest) && multiset(rest) == multiset(s[1..]) + multiset{x}
    ensures NewestFirst([s[0]] + rest)
    ensures multiset([s[0]] + rest) == multiset(s) + multiset{x}
  {
    assert s == [s[0]] + s[1..];
    forall j | 0 <= j < |rest| ensures rest[j].createdAt <= s[0].createdAt {
      var y := rest[j];
      assert y in multiset(rest);
      if y != x {
        assert y in multiset(s[1..]);
        var k :| 0 <= k < |s[1..]| && s[1..][k] == y;
        assert s[k + 1] == y;
      }
    }
    var r := [s[0]] + rest;
    forall i, j | 0 <= i < j < |r| ensures r[i].createdAt >= r[j].createdAt {
      assert r[j] == rest[j - 1];
      if i > 0 {
        assert r[i] == rest[i - 1];
      }
    }
  }

  /** `orderBy: { createdAt: "desc" }`: a newest-first permutation. Rows with
      the same creation time keep their table order. */
  function SortNewestFirst(s: seq<Property>): (r: seq<Property>)
    ensures NewestFirst(r)
    ensures multiset(r) == multiset(s)
  {
    if s == [] then []
    else
      assert s == [s[0]] + s[1..];
      Insert(s[0], SortNewestFirst(s[1..]))
  }

  /** The rows of `s` created at time `t`, in the order `s` holds them. */
  function SameTime(s: seq<Property>, t: int): (r: seq<Property>)
    ensures forall i :: 0 <= i < |r| ==> r[i].createdAt == t
  {
    if s == [] then []
    else (if s[0].createdAt == t then [s[0]] else []) + SameTime(s[1..], t)
  }

  /** Insertion puts `x` ahead of every row created at its time. */
  lemma {:induction false} InsertAheadOfTies(x: Property, s: seq<Property>, t: int)
    requires NewestFirst(s)
    ensures SameTime(Insert(x, s), t) == (if x.createdAt == t then [x] else []) + SameTime(s, t)
  {
    if s == [] || x.createdAt >= s[0].createdAt {
      assert ([x] + s)[1..] == s;
    } else {
      var tail := s[1..];
      assert NewestFirst(tail) by {
        forall i, j | 0 <= i < j < |tail| ensures tail[i].createdAt >= tail[j].createdAt {
          assert tail[i] == s[i + 1] && tail[j] == s[j + 1];
        }
      }
      var rest := Insert(x, tail);
      assert Insert(x, s) == [s[0]] + rest;
      InsertAheadOfTies(x, tail, t);
      var u := [s[0]] + rest;
      assert u[0] == s[0] && u[1..] == rest;
      assert SameTime(u, t) == (if s[0].createdAt == t then [s[0]] else []) + SameTime(rest, t);
      assert SameTime(s, t) == (if s[0].createdAt == t then [s[0]] else []) + SameTime(tail, t);
    }
  }

  /** The sort is stable: rows created at the same time keep their table
      order. */
  lemma {:induction false} SortKeepsTies(s: seq<Property>, t: int)
    ensures SameTime(SortNewestFirst(s), t) == SameTime(s, t)
  {
    if s != [] {
      SortKeepsTies(s[1..], t);
      InsertAheadOfTies(s[0], SortNewestFirst(s[1..]), t);
    }
  }

  /** The rows of the listing query, before projection: sorted newest first,
      and holding each matching row exactly as often as the table does. */
  function Ranked(props: seq<Property>, search: string, category: Option<string>): (r: seq<Property>)
    ensures NewestFirst(r)
    ensures forall x :: multiset(r)[x] == if Matches(x, search, category) then multiset(props)[x] else 0
  {
    SortNewestFirst(Select(props, search, category))
  }

  /** The `select` clause of `fetchProperties`. */
  function Summarize(p: Property): PropertySummary
  {
    PropertySummary(p.id, p.name, p.image, p.tagline, p.country, p.price)
  }

  /** `fetchProperties({ search = "", category })`: the summaries of the
      matching rows, newest first. */
  function FetchProperties(props: seq<Property>, search: string, category: Option<string>): (r: seq<PropertySummary>)
    ensures |r| == |Select(props, search, category)|
    ensures forall i :: 0 <= i < |r| ==>
      exists p :: p in props && Matches(p, search, category) && r[i] == Summarize(p)
    ensures forall i :: 0 <= i < |r| ==> r[i] == Summarize(Ranked(props, search, category)[i])
  {
    var rows := Ranked(props, search, category);
    assert |rows| == |Select(props, search, category)| by {
      assert multiset(rows) == multiset(Select(props, search, category));
    }
    forall i | 0 <= i < |rows| ensures rows[i] in props && Matches(rows[i], search, category) {
      assert multiset(rows)[rows[i]] > 0;
    }
    seq(|rows|, i requires 0 <= i < |rows| => Summarize(rows[i]))
  }

  /** With the default empty search and no category, the listing holds every
      row of the table, newest first. */
  lemma FetchAllByDefault(props: seq<Property>)
    ensures multiset(Ranked(props, "", None)) == multiset(props)
    ensures |FetchProperties(props, "", None)| == |props|
  {
    var r := Ranked(props, "", None);
    forall x ensures multiset(r)[x] == multiset(props)[x] {
      Strings.EmptyContained(x.name);
    }
    assert multiset(r) == multiset(props);
    assert |multiset(r)| == |multiset(props)|;
  }

  /** With a category, every listed row has exactly that category, and every
      row of that category whose name or tagline holds the search is listed. */
  lemma FetchByCategory(props: seq<Property>, search: string, category: string)
    ensures forall x :: x in Ranked(props, search, Some(category)) ==> x.category == category
    ensures forall x :: x in props && x.category == category &&
                        (Strings.ContainsInsensitive(x.name, search) ||
                         Strings.ContainsInsensitive(x.tagline, search)) ==>
                        x in Ranked(props, search, Some(category))
  {
    var r := Ranked(props, search, Some(category));
    forall x | x in r ensures x.category == category {
      assert multiset(r)[x] > 0;
    }
    forall x | x in props && x.category == category &&
               (Strings.ContainsInsensitive(x.name, search) ||
                Strings.ContainsInsensitive(x.tagline, search))
      ensures x in r
    {
      assert multiset(props)[x] > 0;
    }
  }

  /** A row just appended by `createPropertyAction` shows up, with its id,
      name, uploaded image, tagline, country and price, in the default
      listing. */
  lemma CreatedPropertyListed(props: seq<Property>, row: Property)
    ensures Summarize(row) in FetchProperties(props + [row], "", None)
  {
    var all := props + [row];
    FetchAllByDefault(all);
    var rows := Ranked(all, "", None);
    assert row in multiset(all);
    assert row in multiset(rows);
    var i :| 0 <= i < |rows| && rows[i] == row;
    assert FetchProperties(all, "", None)[i] == Summarize(row);
  }
}
