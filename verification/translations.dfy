/**
 * The translation table and its key builders. Only the entries the
 * modelled components look up are transcribed: the application name, the
 * eight category labels, the three role labels and the expiration-badge
 * strings.
 */
module Translations {
  import opened Text
  import opened Domain
  import opened Wrappers

  /** The two interface languages. */
  datatype Lang = Da | En

  /** One table entry: the Danish and the English text. */
  datatype Entry = Entry(da: string, en: string)

  /** The text of an entry in one language. */
  function Pick(e: Entry, lang: Lang): string {
    match lang
    case Da => e.da
    case En => e.en
  }

  const CategoryKeyPrefix: string := "category."
  const RoleKeyPrefix: string := "stash.role."

  const ExpirationKeyPrefix: string := "expiration."

  /**
   * The transcribed part of the translation table: the entry stored under
   * `key`, or nothing when the table has no such key. The keys are looked
   * up by namespace: `category.<enum name>`, `stash.role.<role>`,
   * `expiration.<name>` and `app.name`.
   */
  function TableEntry(key: string): (r: Option<Entry>)
    ensures r.Some? ==> r.value.da != "" && r.value.en != ""
  {
    if StartsWith(key, CategoryKeyPrefix) then
      match ParseCategory(key[|CategoryKeyPrefix|..])
      case Some(c) => Some(CategoryEntry(c))
      case None => None
    else if StartsWith(key, RoleKeyPrefix) then RoleEntry(key[|RoleKeyPrefix|..])
    else if StartsWith(key, ExpirationKeyPrefix) then ExpirationEntry(key[|ExpirationKeyPrefix|..])
    else if key == "app.name" then Some(Entry("Prepperhjælper", "Prepper Helper"))
    else None
  }

  /** The `category.*` entries. */
  function CategoryEntry(c: Category): (e: Entry)
    ensures e.en == CategoryLabel(c) && e.da != ""
  {
    match c
    case Water => Entry("Vand", "Water")
    case CannedFood => Entry("Dåsemad", "Canned Food")
    case DryGoods => Entry("Tørvarer", "Dry Goods")
    case FirstAid => Entry("Førstehjælp", "First Aid")
    case Tools => Entry("Værktøj", "Tools")
    case Hygiene => Entry("Hygiejne", "Hygiene")
    case Documents => Entry("Dokumenter", "Documents")
    case Other => Entry("Andet", "Other")
  }

  /** The `stash.role.*` entries, by the part after the prefix. */
  function RoleEntry(name: string): (r: Option<Entry>)
    ensures r.Some? ==> r.value.da != "" && r.value.en != ""
  {
    if name == "owner" then Some(Entry("Ejer", "Owner"))
    else if name == "admin" then Some(Entry("Admin", "Admin"))
    else if name == "member" then Some(Entry("Medlem", "Member"))
    else None
  }

  /** The `expiration.*` entries, by the part after the prefix. */
  function ExpirationEntry(name: string): (r: Option<Entry>)
    ensures r.Some? ==> r.value.da != "" && r.value.en != ""
  {
    if name == "ok" then Some(Entry("OK", "OK"))
    else if name == "expiringSoon" then Some(Entry("Udløber snart", "Expiring Soon"))
    else if name == "expiresSoon" then Some(Entry("Udløber snart!", "Expires Soon!"))
    else if name == "expired" then Some(Entry("Udløbet", "Expired"))
    else if name == "noExpiration" then Some(Entry("Ingen udløbsdato", "No expiration"))
    else if name == "daysAgo" then Some(Entry("dage siden", "days ago"))
    else if name == "today" then Some(Entry("I dag", "Today"))
    else if name == "tomorrow" then Some(Entry("I morgen", "Tomorrow"))
    else if name == "days" then Some(Entry("dage", "days"))
    else None
  }

  /** `getCategoryKey`: the category's enum name under `category.`. */
  function GetCategoryKey(category: string): (k: string)
    ensures StartsWith(k, CategoryKeyPrefix) && |k| == |CategoryKeyPrefix| + |category|
  {
    CategoryKeyPrefix + category
  }

  /** The category is recovered from its key, so different categories get different keys. */
  lemma CategoryKeyInjective(a: string, b: string)
    requires GetCategoryKey(a) == GetCategoryKey(b)
    ensures a == b
  {
    assert a == GetCategoryKey(a)[|CategoryKeyPrefix|..];
    assert b == GetCategoryKey(b)[|CategoryKeyPrefix|..];
  }

  /** Every category's key is in the table, and its English text is the category's label. */
  lemma CategoryKeysCovered()
    ensures forall c :: TableEntry(GetCategoryKey(CategoryName(c))).Some?
    ensures forall c :: TableEntry(GetCategoryKey(CategoryName(c))).value.en == CategoryLabel(c)
  {
    forall c
      ensures TableEntry(GetCategoryKey(CategoryName(c))) == Some(CategoryEntry(c))
    {
      var k := GetCategoryKey(CategoryName(c));
      assert k[|CategoryKeyPrefix|..] == CategoryName(c);
      ParseCategoryName(c);
    }
  }

  /** `getRoleKey`: the lower-cased role name under `stash.role.`. */
  function GetRoleKey(role: string): (k: string)
    ensures StartsWith(k, RoleKeyPrefix) && |k| == |RoleKeyPrefix| + |role|
  {
    RoleKeyPrefix + Lower(role)
  }

  /** The role key ignores the case of the role name. */
  lemma RoleKeyIgnoresCase(role: string)
    ensures GetRoleKey(Upper(role)) == GetRoleKey(role)
  {
    assert Lower(Upper(role)) == Lower(role);
  }

  /** The three role names lower-case to the suffixes of the three role keys. */
  lemma RoleKeys()
    ensures GetRoleKey(RoleName(Owner)) == RoleKeyPrefix + "owner"
    ensures GetRoleKey(RoleName(Admin)) == RoleKeyPrefix + "admin"
    ensures GetRoleKey(RoleName(Member)) == RoleKeyPrefix + "member"
  {
    assert Lower("OWNER") == "owner";
    assert Lower("ADMIN") == "admin";
    assert Lower("MEMBER") == "member";
  }

  /** Each of the three roles maps onto a key the table holds. */
  lemma RoleKeysCovered()
    ensures forall r :: TableEntry(GetRoleKey(RoleName(r))).Some?
  {
    RoleKeys();
    forall r
      ensures TableEntry(GetRoleKey(RoleName(r))).Some?
    {
      var k := GetRoleKey(RoleName(r));
      assert k[..|CategoryKeyPrefix|][0] != CategoryKeyPrefix[0];
      assert StartsWith(k, RoleKeyPrefix);
    }
  }

  /** No transcribed key is a default checklist key: the table has no `checklist.item.` entries. */
  lemma NoChecklistItemKeys()
    ensures forall k :: TableEntry(k).Some? ==> !StartsWith(k, ChecklistKeyPrefix)
  {
    forall k | StartsWith(k, ChecklistKeyPrefix)
      ensures TableEntry(k).None?
    {
      assert k[0] == 'c' && k[1] == 'h';
    }
  }
}
