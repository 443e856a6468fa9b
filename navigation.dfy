/**
 * The navigation bar's two fallback chains over the signed-in user's
 * profile: the avatar initials and the display name. A profile field
 * that is null, undefined or "" is falsy and skipped.
 */
module Navigation {
  import opened Js

  /** The profile fields the navigation bar reads; "" stands for an absent value. */
  datatype User = User(firstName: string, lastName: string, fullName: string, emailAddresses: seq<string>)

  /** `user?.emailAddresses?.[0]?.emailAddress`, "" when there is none. */
  function FirstEmail(u: User): string
  {
    if |u.emailAddresses| > 0 then u.emailAddresses[0] else ""
  }

  /** `getUserInitials`, as written: a template literal prints an absent first
      character of an empty name part as "undefined". */
  function GetUserInitials(user: Option<User>): string
  {
    if user.None? then "U"
    else
      var u := user.value;
      if u.firstName != "" && u.lastName != "" then ToUpper([u.firstName[0], u.lastName[0]])
      else if u.firstName != "" then ToUpper([u.firstName[0]])
      else if u.fullName != "" then
        var names := Split(u.fullName, ' ');
        if |names| >= 2 then ToUpper(IndexText(names[0], 0) + IndexText(names[|names| - 1], 0))
        else ToUpper(IndexText(names[0], 0))
      else if FirstEmail(u) != "" then ToUpper([FirstEmail(u)[0]])
      else "U"
  }

  /** With both first and last name, the initials are their first characters, upper-cased. */
  lemma InitialsFirstLast(u: User)
    requires u.firstName != "" && u.lastName != ""
    ensures GetUserInitials(Some(u)) == [UpperChar(u.firstName[0]), UpperChar(u.lastName[0])]
  {
  }

  /** The fallback order: first+last, first, full name, first e-mail, then "U";
      no user at all also gives "U". */
  lemma InitialsPrecedence(user: Option<User>)
    ensures user.None? ==> GetUserInitials(user) == "U"
    ensures user.Some? && user.value.firstName != "" && user.value.lastName == "" ==>
              GetUserInitials(user) == [UpperChar(user.value.firstName[0])]
    ensures user.Some? && user.value.firstName == "" && user.value.fullName == "" && FirstEmail(user.value) != "" ==>
              GetUserInitials(user) == [UpperChar(FirstEmail(user.value)[0])]
    ensures user.Some? && user.value.firstName == "" && user.value.fullName == "" && FirstEmail(user.value) == "" ==>
              GetUserInitials(user) == "U"
  {
  }

  /** A full name made of space-separated non-empty words gives the first character of
      the first word and of the last word, or of the only word. */
  lemma {:induction false} InitialsFromFullName(u: User, words: seq<string>)
    requires u.firstName == "" && |words| >= 1
    requires forall i | 0 <= i < |words| :: words[i] != "" && ' ' !in words[i]
    requires u.fullName == Join(words, ' ')
    ensures |words| >= 2 ==>
              GetUserInitials(Some(u)) == [UpperChar(words[0][0]), UpperChar(words[|words| - 1][0])]
    ensures |words| == 1 ==> GetUserInitials(Some(u)) == [UpperChar(words[0][0])]
  {
    assert forall w | w in words :: ' ' !in w;
    SplitJoin(words, ' ');
    assert u.fullName != "" by {
      if |words| == 1 { assert u.fullName == words[0]; }
      else { assert u.fullName == words[0] + [' '] + Join(words[1..], ' '); }
    }
  }

  /** Counterexample: a full name with a trailing space yields ten letters, not two. */
  lemma InitialsTrailingSpace()
    ensures GetUserInitials(Some(User("", "", "Taro ", []))) == "TUNDEFINED"
  {
    TrailingSpaceParts();
    assert IndexText("Taro", 0) + IndexText("", 0) == "Tundefined";
    UndefinedUpper();
  }

  lemma TrailingSpaceParts()
    ensures Split("Taro ", ' ') == ["Taro", ""]
  {
    SplitAtFirst("Taro ", ' ', 4);
    assert "Taro "[..4] == "Taro" && "Taro "[5..] == "";
  }

  lemma UndefinedUpper()
    ensures ToUpper("Tundefined") == "TUNDEFINED"
  {
    var t := "Tundefined";
    var u := ToUpper(t);
    assert |u| == 10;
    forall i | 0 <= i < 10 ensures u[i] == "TUNDEFINED"[i] {
      assert u[i] == UpperChar(t[i]);
    }
  }

  /** The non-empty parts of a split, in order. */
  function Words(parts: seq<string>): (ws: seq<string>)
    ensures forall i | 0 <= i < |ws| :: ws[i] != "" && ws[i] in parts
  {
    if parts == [] then []
    else if parts[0] == "" then Words(parts[1..])
    else [parts[0]] + Words(parts[1..])
  }

  /** `getUserInitials` as evidently intended: initials come from the non-empty words
      of the full name, and a full name of spaces only counts as absent. */
  function GetUserInitialsCorrected(user: Option<User>): string
  {
    if user.None? then "U"
    else
      var u := user.value;
      var words := Words(Split(u.fullName, ' '));
      if u.firstName != "" && u.lastName != "" then ToUpper([u.firstName[0], u.lastName[0]])
      else if u.firstName != "" then ToUpper([u.firstName[0]])
      else if |words| >= 2 then ToUpper([words[0][0], words[|words| - 1][0]])
      else if |words| == 1 then ToUpper([words[0][0]])
      else if FirstEmail(u) != "" then ToUpper([FirstEmail(u)[0]])
      else "U"
  }

  /** Corrected initials are always one or two characters, and they agree with the
      code as written whenever the full name has no empty word. */
  lemma {:induction false} InitialsCorrectedLength(user: Option<User>)
    ensures 1 <= |GetUserInitialsCorrected(user)| <= 2
    ensures user.Some? && user.value.firstName == "" && user.value.fullName != "" &&
            (forall i | 0 <= i < |Split(user.value.fullName, ' ')| :: Split(user.value.fullName, ' ')[i] != "") ==>
              GetUserInitialsCorrected(user) == GetUserInitials(user)
  {
    if user.Some? && user.value.firstName == "" && user.value.fullName != "" {
      var parts := Split(user.value.fullName, ' ');
      if forall i | 0 <= i < |parts| :: parts[i] != "" {
        InitialsCorrectedAgree(user.value);
      }
    }
  }

  lemma InitialsCorrectedAgree(u: User)
    requires u.firstName == "" && u.fullName != ""
    requires forall i | 0 <= i < |Split(u.fullName, ' ')| :: Split(u.fullName, ' ')[i] != ""
    ensures GetUserInitialsCorrected(Some(u)) == GetUserInitials(Some(u))
  {
    var parts := Split(u.fullName, ' ');
    WordsOfNonEmpty(parts);
    var last := parts[|parts| - 1];
    var x := if |parts| >= 2 then [parts[0][0], last[0]] else [parts[0][0]];
    assert GetUserInitialsCorrected(Some(u)) == ToUpper(x);
    assert GetUserInitials(Some(u)) == ToUpper(x) by {
      assert IndexText(parts[0], 0) == [parts[0][0]];
      assert IndexText(last, 0) == [last[0]];
    }
  }

  lemma {:induction false} WordsOfNonEmpty(parts: seq<string>)
    requires forall i | 0 <= i < |parts| :: parts[i] != ""
    ensures Words(parts) == parts
  {
    if parts != [] {
      WordsOfNonEmpty(parts[1..]);
    }
  }

  const DefaultDisplayName := "ユーザー"

  /** `getUserDisplayName` */
  function GetUserDisplayName(user: Option<User>): string
  {
    if user.Some? && user.value.fullName != "" then user.value.fullName
    else if user.Some? && user.value.firstName != "" && user.value.lastName != "" then
      user.value.firstName + " " + user.value.lastName
    else if user.Some? && user.value.firstName != "" then user.value.firstName
    else if user.Some? && FirstEmail(user.value) != "" then FirstEmail(user.value)
    else DefaultDisplayName
  }

  /** The display name is never empty: each branch returns only a value it has checked. */
  lemma DisplayNameNonEmpty(user: Option<User>)
    ensures GetUserDisplayName(user) != ""
  {
  }

  /** The fallback order: full name, "first last", first name, first e-mail, then the default. */
  lemma DisplayNamePrecedence(user: Option<User>)
    ensures user.None? ==> GetUserDisplayName(user) == DefaultDisplayName
    ensures user.Some? && user.value.fullName != "" ==> GetUserDisplayName(user) == user.value.fullName
    ensures user.Some? && user.value.fullName == "" && user.value.firstName != "" ==>
              GetUserDisplayName(user) ==
                if user.value.lastName != "" then user.value.firstName + " " + user.value.lastName
                else user.value.firstName
    ensures user.Some? && user.value.fullName == "" && user.value.firstName == "" ==>
              GetUserDisplayName(user) == if FirstEmail(user.value) != "" then FirstEmail(user.value) else DefaultDisplayName
  {
  }

  /** Where the display name is built from first and last name (both single words), the
      initials are the upper-cased first characters of its two words. */
  lemma InitialsMatchDisplayName(u: User)
    requires u.fullName == "" && u.firstName != "" && u.lastName != ""
    ensures var d := GetUserDisplayName(Some(u));
            GetUserInitials(Some(u)) == [UpperChar(d[0]), UpperChar(d[|u.firstName| + 1])]
  {
    var d := GetUserDisplayName(Some(u));
    assert d[|u.firstName| + 1] == u.lastName[0];
  }

  /** Without a full name, and with a first name or an e-mail, the first initial is the
      display name's first character upper-cased, whichever branch both take. */
  lemma InitialsFollowDisplayName(u: User)
    requires u.fullName == "" && (u.firstName != "" || FirstEmail(u) != "")
    ensures var i := GetUserInitials(Some(u));
            var d := GetUserDisplayName(Some(u));
            |i| >= 1 && d != "" && i[0] == UpperChar(d[0])
  {
  }
}
