/**
 * The enumerations and constant tables of the shared types file: item
 * categories with their English labels and database names, member
 * roles, and the default emergency checklist every stash is seeded with.
 */
module Domain {
  import opened Wrappers
  import opened Text

  /** The item categories, in the order the database enum declares them. */
  datatype Category = Water | CannedFood | DryGoods | FirstAid | Tools | Hygiene | Documents | Other

  /** The eight categories in declaration order. */
  const AllCategories: seq<Category> :=
    [Water, CannedFood, DryGoods, FirstAid, Tools, Hygiene, Documents, Other]

  /** A stash member's role. */
  datatype Role = Owner | Admin | Member

  /** The enum member's name as stored and sent over the wire. */
  function CategoryName(c: Category): string {
    match c
    case Water => "WATER"
    case CannedFood => "CANNED_FOOD"
    case DryGoods => "DRY_GOODS"
    case FirstAid => "FIRST_AID"
    case Tools => "TOOLS"
    case Hygiene => "HYGIENE"
    case Documents => "DOCUMENTS"
    case Other => "OTHER"
  }

  /** The category whose enum name is exactly `s`, if any (`Object.values(Category).includes(s)`). */
  function ParseCategory(s: string): (r: Option<Category>)
    ensures r.Some? ==> CategoryName(r.value) == s
    ensures r.None? ==> forall c :: CategoryName(c) != s
  {
    if s == "WATER" then Some(Water)
    else if s == "CANNED_FOOD" then Some(CannedFood)
    else if s == "DRY_GOODS" then Some(DryGoods)
    else if s == "FIRST_AID" then Some(FirstAid)
    else if s == "TOOLS" then Some(Tools)
    else if s == "HYGIENE" then Some(Hygiene)
    else if s == "DOCUMENTS" then Some(Documents)
    else if s == "OTHER" then Some(Other)
    else None
  }

  /** Parsing a category's name gives the category back. */
  lemma ParseCategoryName(c: Category)
    ensures ParseCategory(CategoryName(c)) == Some(c)
  {
  }

  /** The position of a category in the enum declaration; the database orders by it. */
  function CategoryRank(c: Category): (r: nat)
    ensures r < |AllCategories| && AllCategories[r] == c
  {
    match c
    case Water => 0
    case CannedFood => 1
    case DryGoods => 2
    case FirstAid => 3
    case Tools => 4
    case Hygiene => 5
    case Documents => 6
    case Other => 7
  }

  /** The enum name of a role. */
  function RoleName(r: Role): string {
    match r
    case Owner => "OWNER"
    case Admin => "ADMIN"
    case Member => "MEMBER"
  }

  /** The English display label of each category. */
  function CategoryLabel(c: Category): string {
    match c
    case Water => "Water"
    case CannedFood => "Canned Food"
    case DryGoods => "Dry Goods"
    case FirstAid => "First Aid"
    case Tools => "Tools"
    case Hygiene => "Hygiene"
    case Documents => "Documents"
    case Other => "Other"
  }

  /** The label table covers every category with a non-empty label, and no two categories share one. */
  lemma CategoryLabelsTotalAndDistinct()
    ensures forall c :: |CategoryLabel(c)| > 0
    ensures forall c, d :: c != d ==> CategoryLabel(c) != CategoryLabel(d)
  {
    forall c, d | c != d ensures CategoryLabel(c) != CategoryLabel(d) {
      match c case _ => match d case _ =>
    }
  }

  /** One default checklist entry: a translation key and its category. */
  datatype DefaultEntry = DefaultEntry(name: string, category: Category)

  const ChecklistKeyPrefix: string := "checklist.item."

  /** The recommended supplies every stash's checklist is seeded with. */
  const DefaultChecklist: seq<DefaultEntry> := [
    DefaultEntry(ChecklistKeyPrefix + "bottledWater", Water),
    DefaultEntry(ChecklistKeyPrefix + "waterPurification", Water),
    DefaultEntry(ChecklistKeyPrefix + "cannedVegetables", CannedFood),
    DefaultEntry(ChecklistKeyPrefix + "cannedFruits", CannedFood),
    DefaultEntry(ChecklistKeyPrefix + "cannedMeatFish", CannedFood),
    DefaultEntry(ChecklistKeyPrefix + "cannedSoup", CannedFood),
    DefaultEntry(ChecklistKeyPrefix + "rice", DryGoods),
    DefaultEntry(ChecklistKeyPrefix + "pasta", DryGoods),
    DefaultEntry(ChecklistKeyPrefix + "oatmeal", DryGoods),
    DefaultEntry(ChecklistKeyPrefix + "crackers", DryGoods),
    DefaultEntry(ChecklistKeyPrefix + "peanutButter", DryGoods),
    DefaultEntry(ChecklistKeyPrefix + "driedBeans", DryGoods),
    DefaultEntry(ChecklistKeyPrefix + "firstAidKit", FirstAid),
    DefaultEntry(ChecklistKeyPrefix + "prescriptionMeds", FirstAid),
    DefaultEntry(ChecklistKeyPrefix + "painRelievers", FirstAid),
    DefaultEntry(ChecklistKeyPrefix + "bandagesGauze", FirstAid),
    DefaultEntry(ChecklistKeyPrefix + "antisepticWipes", FirstAid),
    DefaultEntry(ChecklistKeyPrefix + "flashlight", Tools),
    DefaultEntry(ChecklistKeyPrefix + "batteries", Tools),
    DefaultEntry(ChecklistKeyPrefix + "canOpener", Tools),
    DefaultEntry(ChecklistKeyPrefix + "multitool", Tools),
    DefaultEntry(ChecklistKeyPrefix + "radio", Tools),
    DefaultEntry(ChecklistKeyPrefix + "toiletPaper", Hygiene),
    DefaultEntry(ChecklistKeyPrefix + "handSanitizer", Hygiene),
    DefaultEntry(ChecklistKeyPrefix + "soap", Hygiene),
    DefaultEntry(ChecklistKeyPrefix + "toothbrushPaste", Hygiene),
    DefaultEntry(ChecklistKeyPrefix + "importantDocs", Documents),
    DefaultEntry(ChecklistKeyPrefix + "cash", Documents)
  ]

  /**
   * A cheap summary of a default name: its length and the first character
   * after the common prefix. The 28 defaults all have different summaries.
   */
  function Fingerprint(s: string): int {
    if |s| > |ChecklistKeyPrefix| then |s| * 1000 + s[|ChecklistKeyPrefix|] as int else 0
  }

  /** The fingerprints of the default names, in checklist order. */
  const DefaultFingerprints: seq<int> := [
    27098, 32119, 31099, 27099, 29099, 25099, 19114,
    20112, 22111, 23099, 27112, 25100, 26102, 31112,
    28112, 28098, 30097, 25102, 24098, 24099, 24109,
    20114, 26116, 28104, 19115, 30116, 28105, 19099
  ]

  lemma FingerprintsDistinct()
    ensures forall i, j :: 0 <= i < j < |DefaultFingerprints| ==> DefaultFingerprints[i] != DefaultFingerprints[j]
  {
  }

  lemma FingerprintsMatchFrom0()
    ensures forall i :: 0 <= i < 7 ==> Fingerprint(DefaultChecklist[i].name) == DefaultFingerprints[i]
  {
  }

  lemma FingerprintsMatchFrom7()
    ensures forall i :: 7 <= i < 14 ==> Fingerprint(DefaultChecklist[i].name) == DefaultFingerprints[i]
  {
  }

  lemma FingerprintsMatchFrom14()
    ensures forall i :: 14 <= i < 21 ==> Fingerprint(DefaultChecklist[i].name) == DefaultFingerprints[i]
  {
  }

  lemma FingerprintsMatchFrom21()
    ensures forall i :: 21 <= i < 28 ==> Fingerprint(DefaultChecklist[i].name) == DefaultFingerprints[i]
  {
  }

  lemma DefaultNamesArePrefixed()
    ensures forall i :: 0 <= i < |DefaultChecklist| ==> StartsWith(DefaultChecklist[i].name, ChecklistKeyPrefix)
  {
  }

  /**
   * The default checklist has 28 entries, every name is a `checklist.item.`
   * key, and no name repeats.
   */
  lemma DefaultChecklistShape()
    ensures |DefaultChecklist| == 28
    ensures forall i :: 0 <= i < |DefaultChecklist| ==> StartsWith(DefaultChecklist[i].name, ChecklistKeyPrefix)
    ensures forall i, j :: 0 <= i < j < |DefaultChecklist| ==> DefaultChecklist[i].name != DefaultChecklist[j].name
  {
    FingerprintsDistinct();
    FingerprintsMatchFrom0();
    FingerprintsMatchFrom7();
    FingerprintsMatchFrom14();
    FingerprintsMatchFrom21();
    DefaultNamesArePrefixed();
  }

  /** The categories the default checklist uses. */
  function DefaultCategories(): set<Category> {
    set i | 0 <= i < |DefaultChecklist| :: DefaultChecklist[i].category
  }

  /** The defaults cover every category except `Other`, and none is filed under `Other`. */
  lemma DefaultChecklistCategories()
    ensures forall c :: c in DefaultCategories() <==> c != Other
  {
    assert DefaultChecklist[0].category == Water;
    assert DefaultChecklist[2].category == CannedFood;
    assert DefaultChecklist[6].category == DryGoods;
    assert DefaultChecklist[12].category == FirstAid;
    assert DefaultChecklist[17].category == Tools;
    assert DefaultChecklist[22].category == Hygiene;
    assert DefaultChecklist[26].category == Documents;
  }
}
