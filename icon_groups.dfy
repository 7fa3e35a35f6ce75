/**
  The icon-picker's group enumeration (`IconGroup`), the table from a theme
  folder name to its group (`IconCategory`) and the labels of the group
  dropdown, whose selected position is used directly as the group value.
*/
module IconGroups {

  const ALL: int := 0
  const CUSTOM: int := 1
  const DISTRO: int := 2
  const ACTIONS: int := 3
  const APPS: int := 4
  const CATEGORIES: int := 5
  const DEVICES: int := 6
  const EMBLEMS: int := 7
  const EMOTES: int := 8
  const MIMETYPES: int := 9
  const OTHER: int := 10
  const PLACES: int := 11
  const SCALABLE: int := 12
  const STATUS: int := 13


  /** A value of the `IconGroup` enumeration. */
  predicate IsIconGroup(g: int) { ALL <= g <= STATUS }

  /** `IconCategory`: theme folder name to group. */
  const IconCategory: map<string, int> := map[
    "actions" := ACTIONS,
    "apps" := APPS,
    "categories" := CATEGORIES,
    "devices" := DEVICES,
    "emblems" := EMBLEMS,
    "emotes" := EMOTES,
    "mimetypes" := MIMETYPES,
    "other" := OTHER,
    "places" := PLACES,
    "scalable" := SCALABLE,
    "status" := STATUS
  ]

  /** The labels appended to the group dropdown, in order. */
  const DropdownLabels: seq<string> := [
    "All", "Custom", "Distros", "Actions", "Applications", "Categories", "Devices",
    "Emblems", "Emotes", "Mimetypes", "Other", "Places", "Scalable", "Status"
  ]

  /** The label each group is shown under. */
  function GroupLabel(g: int): string {
    if g == ALL then "All"
    else if g == CUSTOM then "Custom"
    else if g == DISTRO then "Distros"
    else if g == ACTIONS then "Actions"
    else if g == APPS then "Applications"
    else if g == CATEGORIES then "Categories"
    else if g == DEVICES then "Devices"
    else if g == EMBLEMS then "Emblems"
    else if g == EMOTES then "Emotes"
    else if g == MIMETYPES then "Mimetypes"
    else if g == OTHER then "Other"
    else if g == PLACES then "Places"
    else if g == SCALABLE then "Scalable"
    else if g == STATUS then "Status"
    else ""
  }

  /**
    The group a dropdown selection stands for: the selected position itself.
    Every position of the dropdown names a group, and the label shown at that
    position is the label of that group.
  */
  function SelectedGroup(selected: nat): (g: int)
    requires selected < |DropdownLabels|
    ensures IsIconGroup(g) && DropdownLabels[selected] == GroupLabel(g)
  {
    selected
  }

  /** The dropdown offers one position per `IconGroup` value. */
  lemma DropdownCoversGroups()
    ensures |DropdownLabels| == STATUS - ALL + 1
    ensures forall g :: IsIconGroup(g) ==> SelectedGroup(g) == g
  {
  }

  /** The folder name `IconCategory` assigns to a group, for the groups it covers. */
  function CategoryName(g: int): string {
    if g == ACTIONS then "actions"
    else if g == APPS then "apps"
    else if g == CATEGORIES then "categories"
    else if g == DEVICES then "devices"
    else if g == EMBLEMS then "emblems"
    else if g == EMOTES then "emotes"
    else if g == MIMETYPES then "mimetypes"
    else if g == OTHER then "other"
    else if g == PLACES then "places"
    else if g == SCALABLE then "scalable"
    else if g == STATUS then "status"
    else ""
  }

  /**
    `IconCategory` maps its folder names to pairwise distinct groups (it has the
    left inverse `CategoryName`), all of them groups other than ALL, CUSTOM and
    DISTRO, and each of the 11 groups from ACTIONS to STATUS is reached.
  */
  lemma IconCategoryDistinct()
    ensures forall a :: a in IconCategory ==> CategoryName(IconCategory[a]) == a
    ensures forall a :: a in IconCategory ==>
              IsIconGroup(IconCategory[a]) && IconCategory[a] != ALL
              && IconCategory[a] != CUSTOM && IconCategory[a] != DISTRO
    ensures forall g :: ACTIONS <= g <= STATUS ==>
              CategoryName(g) in IconCategory && IconCategory[CategoryName(g)] == g
  {
  }
}
