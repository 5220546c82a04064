/**
 * The account menu (components/auth/user-nav.tsx): the profile state its
 * fetch effect keeps, and the name, initials and avatar it shows.
 */
module UserNav {
  import opened Wrappers
  import opened Text

  /** The `avatar_url, full_name` columns the menu selects. */
  datatype NavProfile = NavProfile(avatarUrl: Option<string>, fullName: Option<string>)

  /** The signed-in user: id, email, and `user_metadata.full_name`. */
  datatype NavUser = NavUser(id: string, email: Option<string>, metadataFullName: Option<string>)

  /** `user.email?.charAt(0).toUpperCase()`. */
  function EmailInitial(email: Option<string>): (r: Option<string>)
    ensures r.None? <==> email.None?
    ensures email.Some? && email.value == "" ==> r == Some("")
    ensures email.Some? && email.value != "" ==> r == Some([UpperChar(email.value[0])])
  {
    match email
    case None => None
    case Some(e) =>
      var first := e[..if |e| == 0 then 0 else 1];
      assert |e| > 0 ==> ToUpper(first) == [UpperChar(e[0])];
      Some(ToUpper(first))
  }

  datatype NavView = NavView(displayName: Option<string>, initials: Option<string>, avatarSrc: string, showNameLine: bool)

  /**
   * The menu for one profile state: the first non-empty of the profile's
   * name, the metadata name and the email; its initials, else the email's
   * first letter; the avatar or the placeholder; and the name line only for a
   * non-empty name.
   */
  function View(profile: Option<NavProfile>, user: NavUser): (v: NavView)
    ensures profile.Some? && Truthy(profile.value.fullName) ==> v.displayName == profile.value.fullName
    ensures !(profile.Some? && Truthy(profile.value.fullName)) && Truthy(user.metadataFullName) ==>
              v.displayName == user.metadataFullName
    ensures !(profile.Some? && Truthy(profile.value.fullName)) && !Truthy(user.metadataFullName) ==>
              v.displayName == user.email
    ensures v.displayName.Some? && !AllSpaces(v.displayName.value) ==>
              v.initials == Some(Initials(v.displayName.value)) && v.initials.value != ""
    ensures v.displayName.None? || AllSpaces(v.displayName.value) ==> v.initials == EmailInitial(user.email)
    ensures Truthy(user.email) ==> v.initials.Some? && v.initials.value != ""
    ensures v.avatarSrc == ImageSrc(if profile.Some? then profile.value.avatarUrl else None)
    ensures v.showNameLine <==> Truthy(v.displayName)
  {
    var profileName := if profile.Some? then profile.value.fullName else None;
    var displayName := Or(Or(profileName, user.metadataFullName), user.email);
    NavView(displayName, InitialsOr(displayName, EmailInitial(user.email)),
            ImageSrc(if profile.Some? then profile.value.avatarUrl else None),
            Truthy(displayName))
  }

  class UserNavState {
    const user: NavUser
    var profile: Option<NavProfile>

    constructor (user: NavUser)
      ensures this.user == user && profile == None
    {
      this.user := user;
      profile := None;
    }

    /** The fetch effect: the profile is replaced only when the query returns a row. */
    method ApplyProfileQuery(data: Option<NavProfile>)
      modifies this`profile
      ensures profile == if data.Some? then data else old(profile)
    {
      if data.Some? {
        profile := data;
      }
    }
  }
}
