/** The sign-in page's reaction to the authentication service's events: a signed-in user
    whose ban has not expired is told so and signed out again; anyone else goes home. */
module AuthPage {
  import opened Wrappers

  /** The effects of one event, in order. */
  datatype Effect = AlertBanned(until: int) | SignOut | Navigate(path: string)

  /** A ban that still holds at `now`: it ends strictly later. */
  predicate BanActive(bannedUntil: Option<int>, now: int)
  {
    bannedUntil.Some? && bannedUntil.value > now
  }

  /** The handler of `onAuthStateChange`. `profile` is the selected row (its `banned_until`),
      absent when the query found none; `now` is the clock when the row arrives. */
  function OnAuthStateChange(event: string, session: Option<string>, profile: Option<Option<int>>, now: int): (effects: seq<Effect>)
    ensures !(event == "SIGNED_IN" && session.Some?) ==> effects == []
    ensures event == "SIGNED_IN" && session.Some? && profile.Some? && BanActive(profile.value, now) ==>
      effects == [AlertBanned(profile.value.value), SignOut]
    ensures event == "SIGNED_IN" && session.Some? && !(profile.Some? && BanActive(profile.value, now)) ==>
      effects == [Navigate("/")]
  {
    if event == "SIGNED_IN" && session.Some? then
      if profile.Some? && profile.value.Some? && profile.value.value > now then
        [AlertBanned(profile.value.value), SignOut]
      else [Navigate("/")]
    else []
  }

  /** The user reaches the site exactly when no ban is recorded or it ends at or before now:
      the comparison is strict, so the instant the ban ends already lets the user in. */
  lemma SignInAdmitted(profile: Option<Option<int>>, now: int)
    ensures Navigate("/") in OnAuthStateChange("SIGNED_IN", Some("user"), profile, now) <==>
      profile.None? || profile.value.None? || profile.value.value <= now
    ensures profile.Some? && profile.value.Some? ==>
      OnAuthStateChange("SIGNED_IN", Some("user"), profile, profile.value.value) == [Navigate("/")]
    ensures SignOut in OnAuthStateChange("SIGNED_IN", Some("user"), profile, now) <==>
      !(Navigate("/") in OnAuthStateChange("SIGNED_IN", Some("user"), profile, now))
  {
  }
}
