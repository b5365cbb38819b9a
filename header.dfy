/** The page header (components/layout/Header.tsx): the name shown for the
    signed-in user and the initials in their avatar. */
module Header {
  import opened Common
  import AuthProvider

  /** `word[0]`, joined: an empty word gives `undefined`, which `join` writes
      as nothing. */
  function FirstChar(word: string): (r: string)
    ensures |r| <= 1
  {
    if word == "" then "" else [word[0]]
  }

  /** `words.map(word => word[0]).join('')` */
  function FirstChars(words: seq<string>): (r: string)
    ensures |r| <= |words|
  {
    if words == [] then "" else FirstChar(words[0]) + FirstChars(words[1..])
  }

  /** A word that is not empty. */
  function IsWord(): string -> bool
  {
    (w: string) => w != ""
  }

  /** `getUserInitials` */
  function Initials(name: string): (r: string)
    ensures |r| <= |Split(name, ' ')|
  {
    Upper(FirstChars(Split(name, ' ')))
  }

  /** The joined first characters are the first characters of the non-empty
      words, one each and in order: empty words contribute nothing. */
  lemma {:induction false} FirstCharsOfWords(words: seq<string>)
    ensures var ws := Filter(words, IsWord());
      |FirstChars(words)| == |ws| && forall i :: 0 <= i < |ws| ==> ws[i] != "" && FirstChars(words)[i] == ws[i][0]
  {
    if words != [] {
      var w, rest := words[0], words[1..];
      FirstCharsOfWords(rest);
      assert words == [w] + rest;
      FilterConcat([w], rest, IsWord());
      assert Filter([w], IsWord()) == (if w != "" then [w] else []) by {
        assert [w][..0] == [];
      }
    }
  }

  /** The initials are the uppercased first characters of the non-empty
      space-separated words, in order, and there are no more of them than
      pieces. */
  lemma InitialsMeaning(name: string)
    ensures var ws := Filter(Split(name, ' '), IsWord());
      |Initials(name)| == |ws| <= |Split(name, ' ')|
      && forall i :: 0 <= i < |ws| ==> ws[i] != "" && Initials(name)[i] == UpperChar(ws[i][0])
  {
    FirstCharsOfWords(Split(name, ' '));
  }

  /** `user?.email?.split('@')[0]`, with `undefined` as the empty string. */
  function EmailName(user: Option<AuthProvider.AuthUser>): string
  {
    if user.Some? && user.value.email.Some? then Split(user.value.email.value, '@')[0] else ""
  }

  /** `getUserDisplayName` */
  function DisplayName(user: Option<AuthProvider.AuthUser>): (r: string)
  {
    if user.Some? && user.value.displayName.Some? && user.value.displayName.value != "" then
      user.value.displayName.value
    else if EmailName(user) != "" then EmailName(user)
    else "사용자"
  }

  /** The display name, else the part of the email before its first '@', else
      '사용자'. */
  lemma DisplayNameRules(user: Option<AuthProvider.AuthUser>)
    ensures var r := DisplayName(user);
      (user.Some? && user.value.displayName.Some? && user.value.displayName.value != "" ==>
         r == user.value.displayName.value)
      && (!(user.Some? && user.value.displayName.Some? && user.value.displayName.value != "") ==>
            if user.Some? && user.value.email.Some? && EmailName(user) != "" then
              var e := user.value.email.value;
              |r| <= |e| && r == e[..|r|] && '@' !in r && (|r| == |e| || e[|r|] == '@')
            else r == "사용자")
  {
    if user.Some? && user.value.email.Some? {
      SplitHead(user.value.email.value, '@');
    }
  }
}
