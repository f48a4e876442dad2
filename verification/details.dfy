/** The read-only detail screen (`screens/UserDetails.tsx`): which strings
    it shows for one user, turning the normalisation sentinels back into
    human-readable text. */
module UserDetails {
  import opened Options
  import opened Text
  import opened Directory

  /** Shown in place of a sentinel. */
  const NotSpecified: string := "Not specified"

  /** The texts the screen renders for one user; `roleBadge` is the badge
      text when the badge is rendered at all. */
  datatype DetailsView = DetailsView(
    fullName: string,
    idLabel: string,
    roleBadge: Option<string>,
    email: string,
    position: string,
    department: string,
    location: string,
    summaryId: string)

  /** The sentinel-to-text rule of one information row. */
  function OrNotSpecified(value: string, sentinel: string): (shown: string)
    ensures value == sentinel ==> shown == NotSpecified
    ensures value != sentinel ==> shown == value
  {
    if value != sentinel then value else NotSpecified
  }

  predicate HasNoLowerCaseLetter(s: string) {
    forall i :: 0 <= i < |s| ==> !('a' <= s[i] <= 'z')
  }

  /** Upper-casing leaves no ASCII lower-case letter behind and keeps the
      string equal to the original up to case. */
  lemma UpperIsUpperCase(s: string)
    ensures HasNoLowerCaseLetter(Upper(s))
    ensures |Upper(s)| == |s| && Lower(Upper(s)) == Lower(s)
  {
    LowerForgetsCase(s);
  }

  /** What the screen displays for `u`. The id and email are shown
      verbatim; the role badge appears exactly when the role is non-empty
      and not the sentinel, and then reads as the role in capitals; the
      position, department and location rows show "Not specified" in place
      of their sentinel. */
  function Display(u: User): (d: DetailsView)
    ensures d.fullName == u.name && d.email == u.email
    ensures d.summaryId == u.id && d.idLabel == "ID: " + u.id
    ensures d.roleBadge.Some? <==> u.role != "" && u.role != NotAvailable
    ensures d.roleBadge.Some? ==>
      |d.roleBadge.value| == |u.role| && Lower(d.roleBadge.value) == Lower(u.role)
      && HasNoLowerCaseLetter(d.roleBadge.value)
    ensures d.position == (if u.role == NotAvailable then NotSpecified else u.role)
    ensures d.department == (if u.department == NotAvailable then NotSpecified else u.department)
    ensures d.location == (if u.location == UnknownCity then NotSpecified else u.location)
  {
    UpperIsUpperCase(u.role);
    DetailsView(
      fullName := u.name,
      idLabel := "ID: " + u.id,
      roleBadge := if u.role != "" && u.role != NotAvailable then Some(Upper(u.role)) else None,
      email := u.email,
      position := OrNotSpecified(u.role, NotAvailable),
      department := OrNotSpecified(u.department, NotAvailable),
      location := OrNotSpecified(u.location, UnknownCity),
      summaryId := u.id)
  }

  /** Displaying a normalised record: no sentinel ever reaches the screen;
      each row shows "Not specified" when its source value was absent,
      empty or the sentinel itself, and otherwise the source value; the
      badge appears exactly when the source had a real job title. */
  lemma DisplayNormalized(raw: RawUser)
    ensures var d := Display(Normalize(raw));
            && d.position != NotAvailable && d.department != NotAvailable && d.location != UnknownCity
            && (d.roleBadge.Some? <==> Truthy(TitleOf(raw)) && TitleOf(raw).value != NotAvailable)
            && (TitleOf(raw) in {None, Some(""), Some(NotAvailable)} ==> d.position == NotSpecified)
            && (DepartmentOf(raw) in {None, Some(""), Some(NotAvailable)} ==> d.department == NotSpecified)
            && (CityOf(raw) in {None, Some(""), Some(UnknownCity)} ==> d.location == NotSpecified)
            && (d.position != NotSpecified ==> TitleOf(raw) == Some(d.position))
            && (d.department != NotSpecified ==> DepartmentOf(raw) == Some(d.department))
            && (d.location != NotSpecified ==> CityOf(raw) == Some(d.location))
  {
  }
}
