/** The key set of the icon table: the only names the table schema's
    `icon` enumeration admits and the only names an icon lookup can hit. */
module Icons {
  import opened Wrappers

  datatype IconKey = Pencil | Trash | ChevronDown | ChevronUp | ChevronsUpDown | Plus | X | Check

  /** The property name under which each icon is exported (case matters). */
  function KeyName(k: IconKey): string {
    match k
    case Pencil => "pencil"
    case Trash => "trash"
    case ChevronDown => "chevronDown"
    case ChevronUp => "chevronUp"
    case ChevronsUpDown => "chevronsUpDown"
    case Plus => "plus"
    case X => "x"
    case Check => "check"
  }

  /** `Icons[s]` by exact, case-sensitive key comparison. */
  function KeyOf(s: string): (r: Option<IconKey>)
    ensures r.Some? ==> KeyName(r.value) == s
    ensures r.None? ==> forall k :: KeyName(k) != s
  {
    if s == "pencil" then Some(Pencil)
    else if s == "trash" then Some(Trash)
    else if s == "chevronDown" then Some(ChevronDown)
    else if s == "chevronUp" then Some(ChevronUp)
    else if s == "chevronsUpDown" then Some(ChevronsUpDown)
    else if s == "plus" then Some(Plus)
    else if s == "x" then Some(X)
    else if s == "check" then Some(Check)
    else None
  }

  lemma KeyNameRoundTrip(k: IconKey)
    ensures KeyOf(KeyName(k)) == Some(k)
  {
  }
}
