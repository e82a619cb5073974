/** The profile screen's display name, e-mail line and avatar initial. */
module Profile {
  import opened Wrappers
  import opened JsText
  import opened Backend

  /** `userInfo.profile`: the database profile row, as far as the screen reads it. */
  datatype ProfileRow = ProfileRow(fullName: Option<string>)
  datatype UserInfo = UserInfo(profile: Option<ProfileRow>)

  function MetaFullName(user: Option<User>): Option<string> {
    if user.Some? && user.value.metadata.Some? then user.value.metadata.value.fullName else None
  }

  function MetaName(user: Option<User>): Option<string> {
    if user.Some? && user.value.metadata.Some? then user.value.metadata.value.name else None
  }

  /** `user?.email?.split('@')[0]`. */
  function EmailLocalPart(user: Option<User>): (r: Option<string>)
    ensures r.Some? <==> user.Some? && user.value.email.Some?
    ensures r.Some? ==> '@' !in r.value && r.value == BeforeFirst(user.value.email.value, '@')
  {
    if user.Some? && user.value.email.Some? then Some(BeforeFirst(user.value.email.value, '@')) else None
  }

  /** `userInfo?.profile?.full_name`. */
  function ProfileFullName(info: Option<UserInfo>): Option<string> {
    if info.Some? && info.value.profile.Some? then info.value.profile.value.fullName else None
  }

  /** `getUserDisplayName`. */
  function DisplayName(loginType: Option<string>, user: Option<User>, info: Option<UserInfo>): (r: string)
    ensures r != ""
    ensures loginType == Some("google") ==>
      r == FirstTruthy([MetaFullName(user), MetaName(user), EmailLocalPart(user)], "Google User")
    ensures loginType == Some("email") ==>
      r == FirstTruthy([MetaFullName(user), EmailLocalPart(user)], "User")
    ensures loginType != Some("google") && loginType != Some("email") ==>
      r == FirstTruthy([ProfileFullName(info)], "User")
  {
    if loginType == Some("google") then
      var chain := [MetaFullName(user), MetaName(user), EmailLocalPart(user)];
      FirstTruthyCons(chain, "Google User");
      FirstTruthyCons(chain[1..], "Google User");
      FirstTruthyCons(chain[2..], "Google User");
      assert chain[2..][1..] == [];
      Or(MetaFullName(user), Or(MetaName(user), Or(EmailLocalPart(user), "Google User")))
    else if loginType == Some("email") then
      var chain := [MetaFullName(user), EmailLocalPart(user)];
      FirstTruthyCons(chain, "User");
      FirstTruthyCons(chain[1..], "User");
      assert chain[1..][1..] == [];
      Or(MetaFullName(user), Or(EmailLocalPart(user), "User"))
    else Or(ProfileFullName(info), "User")
  }

  /** For e-mail logins the metadata `name` is never consulted. */
  lemma EmailLoginIgnoresName(user: User, meta: UserMetadata, other: Option<string>, info: Option<UserInfo>)
    requires user.metadata == Some(meta)
    ensures DisplayName(Some("email"), Some(user), info)
         == DisplayName(Some("email"), Some(user.(metadata := Some(meta.(name := other)))), info)
  {
  }

  /** For Google and e-mail logins the database profile is never consulted. */
  lemma SignedInIgnoresProfile(loginType: Option<string>, user: Option<User>, i1: Option<UserInfo>, i2: Option<UserInfo>)
    requires loginType == Some("google") || loginType == Some("email")
    ensures DisplayName(loginType, user, i1) == DisplayName(loginType, user, i2)
  {
  }

  /** `getUserEmail`. */
  function UserEmail(user: Option<User>): (r: string)
    ensures r != ""
    ensures user.Some? && Truthy(user.value.email) ==> r == user.value.email.value
    ensures !(user.Some? && Truthy(user.value.email)) ==> r == "No email available"
  {
    Or(if user.Some? then user.value.email else None, "No email available")
  }

  /** `toUpperCase` on one character, for the ASCII letters. */
  function AsciiUpper(c: char): char {
    if 'a' <= c <= 'z' then (c as int - 32) as char else c
  }

  /** `getUserDisplayName().charAt(0).toUpperCase()`: always defined, since the display name is never empty. */
  function AvatarInitial(loginType: Option<string>, user: Option<User>, info: Option<UserInfo>): (c: char)
    ensures !('a' <= c <= 'z')
    ensures var first := DisplayName(loginType, user, info)[0];
      c == first || ('a' <= first <= 'z' && c as int == first as int - 32)
  {
    AsciiUpper(DisplayName(loginType, user, info)[0])
  }
}
