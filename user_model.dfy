/**
 * The front end's user model: the predicates and display strings it derives
 * from a user's attributes.
 */
module UserModel {
  import opened Common
  import opened AbstractModel


  /** `fullName()`: `firstName + ' ' + lastName`, with JavaScript's string
      conversion of each (a missing one reads "undefined"). */
  function FullName(attributes: map<string, Value>): string {
    JsToString(JsGet(attributes, "firstName")) + " " + JsToString(JsGet(attributes, "lastName"))
  }

  predicate IsSpace(c: char) {
    c == ' '
  }

  /** A first name without a space is the first word of the full name, and
      the rest is the last name. */
  lemma FullNameSplits(attributes: map<string, Value>, first: string, last: string)
    requires JsGet(attributes, "firstName") == Str(first) && JsGet(attributes, "lastName") == Str(last)
    requires NoneIn(first, IsSpace)
    ensures FullName(attributes) == first + " " + last
    ensures Split(FullName(attributes), IsSpace)[0] == first
  {
    assert FullName(attributes) == first + [' '] + last;
    SplitCons(first, ' ', last, IsSpace);
  }

  /** A user whose names were never set is displayed as "undefined undefined". */
  lemma MissingNamesShowUndefined()
    ensures FullName(map[]) == "undefined undefined"
  {
  }

  /** `_.contains(list, x)`. */
  function Contains(list: seq<Value>, x: Value): (r: bool)
    ensures r <==> exists i :: 0 <= i < |list| && list[i] == x
  {
    if |list| == 0 then false
    else if list[0] == x then true
    else
      var r := Contains(list[1..], x);
      assert r <==> exists i :: 0 <= i < |list| - 1 && list[1..][i] == x;
      if r then
        var i :| 0 <= i < |list| - 1 && list[1..][i] == x;
        assert list[i + 1] == x;
        r
      else
        assert forall i :: 1 <= i < |list| ==> list[i] == list[1..][i - 1];
        r
  }

  /** `isAdmin()`: the token's role keys include the admin role's key. */
  function IsAdmin(attributes: map<string, Value>, adminRoleKey: string): (r: bool)
    ensures r <==> Str(adminRoleKey) in Items(JsGet(attributes, "roles"))
  {
    Contains(Items(JsGet(attributes, "roles")), Str(adminRoleKey))
  }

  /** `login.provider`, undefined for anything that is not an object. */
  function ProviderOf(login: Value): Value {
    JsGet(Fields(login), "provider")
  }

  /** `_.some(logins, 'provider', p)`. */
  function SomeProvider(logins: seq<Value>, provider: string): (r: bool)
    ensures r <==> exists i :: 0 <= i < |logins| && ProviderOf(logins[i]) == Str(provider)
  {
    if |logins| == 0 then false
    else if ProviderOf(logins[0]) == Str(provider) then true
    else
      var r := SomeProvider(logins[1..], provider);
      assert forall i :: 1 <= i < |logins| ==> logins[i] == logins[1..][i - 1];
      r
  }

  /** `hasSocialLogin(provider)`: some social login is with that provider. */
  function HasSocialLogin(attributes: map<string, Value>, provider: string): (r: bool)
    ensures r <==>
      exists i :: 0 <= i < |Items(JsGet(attributes, "_socialLogins"))| &&
        ProviderOf(Items(JsGet(attributes, "_socialLogins"))[i]) == Str(provider)
  {
    SomeProvider(Items(JsGet(attributes, "_socialLogins")), provider)
  }

  /** Adding a login with a provider makes that provider present, and keeps
      every other answer. */
  lemma AddedLoginFound(logins: seq<Value>, login: Value, provider: string, other: string)
    requires ProviderOf(login) == Str(provider)
    ensures SomeProvider(logins + [login], provider)
    ensures other != provider ==> SomeProvider(logins + [login], other) == SomeProvider(logins, other)
  {
    var all := logins + [login];
    assert all[|logins|] == login;
    assert forall i :: 0 <= i < |logins| ==> all[i] == logins[i];
  }

  /** The segments of `rolesDisplay`: each role through `capitalize(words(role).join(' '))`,
      the lodash helpers given as `display`. */
  function RoleSegments(roles: seq<Value>, display: Value -> string): (r: seq<string>)
    ensures |r| == |roles|
    ensures forall i :: 0 <= i < |roles| ==> r[i] == display(roles[i])
  {
    if |roles| == 0 then [] else [display(roles[0])] + RoleSegments(roles[1..], display)
  }

  /** `rolesDisplay()`: the segments joined by ", ". */
  function RolesDisplay(attributes: map<string, Value>, display: Value -> string): string {
    Join(RoleSegments(Items(JsGet(attributes, "roles")), display), ", ")
  }

  predicate IsComma(c: char) {
    c == ','
  }

  /** The parts after the first, each with a leading space. */
  function Spaced(parts: seq<string>): (r: seq<string>)
    ensures |r| == |parts|
    ensures forall i :: 0 <= i < |parts| ==> r[i] == " " + parts[i]
  {
    if |parts| == 0 then [] else [" " + parts[0]] + Spaced(parts[1..])
  }

  /** A leading character that is not a separator joins the first part. */
  lemma SplitPrefix(c: char, s: string, sep: char -> bool)
    requires !sep(c)
    ensures Split([c] + s, sep) == [[c] + Split(s, sep)[0]] + Split(s, sep)[1..]
  {
    var t := [c] + s;
    assert t[1..] == s;
    var i := FirstSep(s, sep);
    assert FirstSep(t, sep) == 1 + i;
    assert t[..1 + i] == [c] + s[..i];
    if i < |s| {
      assert t[1 + i + 1..] == s[i + 1..];
    }
  }

  /** Splitting a ", "-joined string on "," gives the first part and then
      each later part after a space. */
  lemma {:induction false} SplitCommaSpace(parts: seq<string>)
    requires |parts| >= 1
    requires forall i :: 0 <= i < |parts| ==> NoneIn(parts[i], IsComma)
    ensures Split(Join(parts, ", "), IsComma) == [parts[0]] + Spaced(parts[1..])
  {
    if |parts| == 1 {
      SplitClean(parts[0], IsComma);
    } else {
      var rest := parts[1..];
      var tail := Join(rest, ", ");
      SplitCommaSpace(rest);
      assert Join(parts, ", ") == parts[0] + [','] + ([' '] + tail);
      SplitCons(parts[0], ',', [' '] + tail, IsComma);
      SplitPrefix(' ', tail, IsComma);
      assert Spaced(rest) == [" " + rest[0]] + Spaced(rest[1..]);
    }
  }

  /** One segment per role, in role order: splitting the display on "," when
      no segment holds one gives the first segment and then each later
      segment after a space. */
  lemma RolesDisplaySegments(attributes: map<string, Value>, display: Value -> string)
    requires |Items(JsGet(attributes, "roles"))| >= 1
    requires forall v :: NoneIn(display(v), IsComma)
    ensures var roles := Items(JsGet(attributes, "roles"));
      var parts := Split(RolesDisplay(attributes, display), IsComma);
      |parts| == |roles| && parts[0] == display(roles[0]) &&
      forall i :: 1 <= i < |roles| ==> parts[i] == " " + display(roles[i])
  {
    var roles := Items(JsGet(attributes, "roles"));
    var segments := RoleSegments(roles, display);
    SplitCommaSpace(segments);
  }
}
