/** The region-aware material classifier: state-name tables, the per-state
    category index built once from the recycling dataset, and the lookups the
    scanner uses to classify a detected item in the user's state. */
module TrashMap {
  import opened Optional
  import opened Text
  import opened Sorting

  /** The four disposal categories. */
  datatype Category = Recyclable | Compostable | Trash | Dropoff

  /** One item of the dataset, with its status as written there. */
  datatype Item = Item(id: int, name: string, status: string)

  /** One state of the dataset with its items. */
  datatype StateEntry = StateEntry(state: string, items: seq<Item>)

  /** The two indices kept per state: by item id and by normalised item name. */
  datatype RegionTable = RegionTable(byId: map<int, Category>, byName: map<string, Category>)

  /** The table of regions, keyed by normalised state name or lower-case abbreviation. */
  type StateTable = map<string, RegionTable>

  /** What the scanner asks about: a numeric class id or an item name. */
  datatype ItemRef = ById(id: int) | ByName(name: string)

  // ---------------------------------------------------------------- keys

  /** A key is trimmed of JavaScript whitespace and lower-cased. */
  ghost predicate IsKey(s: string) {
    HasNoUpper(s) && (s == [] || (!IsJsSpace(s[0]) && !IsJsSpace(s[|s| - 1])))
  }

  lemma LowerKeepsEnds(s: string)
    ensures |Lower(s)| == |s|
    ensures s != [] ==> (IsJsSpace(Lower(s)[0]) <==> IsJsSpace(s[0]))
    ensures s != [] ==> (IsJsSpace(Lower(s)[|s| - 1]) <==> IsJsSpace(s[|s| - 1]))
  {
  }

  /** `toKey`: trim, then lower-case. The result is a key no longer than its input. */
  function ToKey(s: string): (r: string)
    ensures IsKey(r) && |r| <= |s|
  {
    var t := Trim(s);
    LowerNormalises(t);
    LowerKeepsEnds(t);
    Lower(t)
  }

  /** The keys are exactly the strings `toKey` leaves unchanged. */
  lemma ToKeyFixpoint(s: string)
    ensures ToKey(s) == s <==> IsKey(s)
  {
    if IsKey(s) {
      StripFixpoint(s, IsJsSpace);
      LowerNormalises(s);
    }
  }

  /** `toKey` is idempotent. */
  lemma ToKeyIdempotent(s: string)
    ensures ToKey(ToKey(s)) == ToKey(s)
  {
    ToKeyFixpoint(ToKey(s));
  }

  // ------------------------------------------------------------- statuses

  /** `statusToCategory`: the three named statuses and everything else as trash. */
  function StatusToCategory(status: string): (c: Category)
    ensures c == Recyclable <==> status == "Recyclable"
    ensures c == Compostable <==> status == "Compost"
    ensures c == Dropoff <==> status == "Special handling"
    ensures c == Trash <==> status != "Recyclable" && status != "Compost" && status != "Special handling"
  {
    if status == "Recyclable" then Recyclable
    else if status == "Compost" then Compostable
    else if status == "Special handling" then Dropoff
    else Trash
  }

  /** The dataset's status spelling for each category. */
  function StatusOf(c: Category): string {
    match c
    case Recyclable => "Recyclable"
    case Compostable => "Compost"
    case Dropoff => "Special handling"
    case Trash => "Trash"
  }

  /** Every category is reached, from its own status. */
  lemma StatusRoundTrip(c: Category)
    ensures StatusToCategory(StatusOf(c)) == c
  {
  }

  // ----------------------------------------------------- state-name tables

  /** `NAME_TO_ABBR`: lower-case state name to its postal abbreviation. */
  function NameToAbbr(n: string): Option<string> {
    match n
    case "alabama" => Some("AL")
    case "alaska" => Some("AK")
    case "arizona" => Some("AZ")
    case "arkansas" => Some("AR")
    case "california" => Some("CA")
    case "colorado" => Some("CO")
    case "connecticut" => Some("CT")
    case "delaware" => Some("DE")
    case "florida" => Some("FL")
    case "georgia" => Some("GA")
    case "hawaii" => Some("HI")
    case "idaho" => Some("ID")
    case "illinois" => Some("IL")
    case "indiana" => Some("IN")
    case "iowa" => Some("IA")
    case "kansas" => Some("KS")
    case "kentucky" => Some("KY")
    case "louisiana" => Some("LA")
    case "maine" => Some("ME")
    case "maryland" => Some("MD")
    case "massachusetts" => Some("MA")
    case "michigan" => Some("MI")
    case "minnesota" => Some("MN")
    case "mississippi" => Some("MS")
    case "missouri" => Some("MO")
    case "montana" => Some("MT")
    case "nebraska" => Some("NE")
    case "nevada" => Some("NV")
    case "new hampshire" => Some("NH")
    case "new jersey" => Some("NJ")
    case "new mexico" => Some("NM")
    case "new york" => Some("NY")
    case "north carolina" => Some("NC")
    case "north dakota" => Some("ND")
    case "ohio" => Some("OH")
    case "oklahoma" => Some("OK")
    case "oregon" => Some("OR")
    case "pennsylvania" => Some("PA")
    case "rhode island" => Some("RI")
    case "south carolina" => Some("SC")
    case "south dakota" => Some("SD")
    case "tennessee" => Some("TN")
    case "texas" => Some("TX")
    case "utah" => Some("UT")
    case "vermont" => Some("VT")
    case "virginia" => Some("VA")
    case "washington" => Some("WA")
    case "west virginia" => Some("WV")
    case "wisconsin" => Some("WI")
    case "wyoming" => Some("WY")
    case _ => None
  }

  /** The inverse of `NAME_TO_ABBR`: abbreviation to lower-case state name. */
  function NameOfAbbr(a: string): Option<string> {
    match a
    case "AL" => Some("alabama")
    case "AK" => Some("alaska")
    case "AZ" => Some("arizona")
    case "AR" => Some("arkansas")
    case "CA" => Some("california")
    case "CO" => Some("colorado")
    case "CT" => Some("connecticut")
    case "DE" => Some("delaware")
    case "FL" => Some("florida")
    case "GA" => Some("georgia")
    case "HI" => Some("hawaii")
    case "ID" => Some("idaho")
    case "IL" => Some("illinois")
    case "IN" => Some("indiana")
    case "IA" => Some("iowa")
    case "KS" => Some("kansas")
    case "KY" => Some("kentucky")
    case "LA" => Some("louisiana")
    case "ME" => Some("maine")
    case "MD" => Some("maryland")
    case "MA" => Some("massachusetts")
    case "MI" => Some("michigan")
    case "MN" => Some("minnesota")
    case "MS" => Some("mississippi")
    case "MO" => Some("missouri")
    case "MT" => Some("montana")
    case "NE" => Some("nebraska")
    case "NV" => Some("nevada")
    case "NH" => Some("new hampshire")
    case "NJ" => Some("new jersey")
    case "NM" => Some("new mexico")
    case "NY" => Some("new york")
    case "NC" => Some("north carolina")
    case "ND" => Some("north dakota")
    case "OH" => Some("ohio")
    case "OK" => Some("oklahoma")
    case "OR" => Some("oregon")
    case "PA" => Some("pennsylvania")
    case "RI" => Some("rhode island")
    case "SC" => Some("south carolina")
    case "SD" => Some("south dakota")
    case "TN" => Some("tennessee")
    case "TX" => Some("texas")
    case "UT" => Some("utah")
    case "VT" => Some("vermont")
    case "VA" => Some("virginia")
    case "WA" => Some("washington")
    case "WV" => Some("west virginia")
    case "WI" => Some("wisconsin")
    case "WY" => Some("wyoming")
    case _ => None
  }

  /** Each word's first letter upper-cased, as `ABBR_TO_NAME` builds its values
      by splitting on single spaces. */
  function TitleCase(s: string): (r: string)
    ensures |r| == |s|
  {
    seq(|s|, i requires 0 <= i < |s| => if i == 0 || s[i - 1] == ' ' then UpperChar(s[i]) else s[i])
  }

  /** `ABBR_TO_NAME`: abbreviation to the title-cased state name. */
  function AbbrToName(a: string): Option<string> {
    match NameOfAbbr(a)
    case Some(n) => Some(TitleCase(n))
    case None => None
  }

  /** Looking a name's abbreviation up again gives the name. */
  lemma NameToAbbrInverts(n: string)
    requires NameToAbbr(n).Some?
    ensures NameOfAbbr(NameToAbbr(n).value) == Some(n)
  {
    match n
    case "alabama" =>
    case "alaska" =>
    case "arizona" =>
    case "arkansas" =>
    case "california" =>
    case "colorado" =>
    case "connecticut" =>
    case "delaware" =>
    case "florida" =>
    case "georgia" =>
    case "hawaii" =>
    case "idaho" =>
    case "illinois" =>
    case "indiana" =>
    case "iowa" =>
    case "kansas" =>
    case "kentucky" =>
    case "louisiana" =>
    case "maine" =>
    case "maryland" =>
    case "massachusetts" =>
    case "michigan" =>
    case "minnesota" =>
    case "mississippi" =>
    case "missouri" =>
    case "montana" =>
    case "nebraska" =>
    case "nevada" =>
    case "new hampshire" =>
    case "new jersey" =>
    case "new mexico" =>
    case "new york" =>
    case "north carolina" =>
    case "north dakota" =>
    case "ohio" =>
    case "oklahoma" =>
    case "oregon" =>
    case "pennsylvania" =>
    case "rhode island" =>
    case "south carolina" =>
    case "south dakota" =>
    case "tennessee" =>
    case "texas" =>
    case "utah" =>
    case "vermont" =>
    case "virginia" =>
    case "washington" =>
    case "west virginia" =>
    case "wisconsin" =>
    case "wyoming" =>
    case _ =>
  }

  /** Looking an abbreviation's name up again gives the abbreviation. */
  lemma NameOfAbbrInverts(a: string)
    requires NameOfAbbr(a).Some?
    ensures NameToAbbr(NameOfAbbr(a).value) == Some(a)
  {
    match a
    case "AL" =>
    case "AK" =>
    case "AZ" =>
    case "AR" =>
    case "CA" =>
    case "CO" =>
    case "CT" =>
    case "DE" =>
    case "FL" =>
    case "GA" =>
    case "HI" =>
    case "ID" =>
    case "IL" =>
    case "IN" =>
    case "IA" =>
    case "KS" =>
    case "KY" =>
    case "LA" =>
    case "ME" =>
    case "MD" =>
    case "MA" =>
    case "MI" =>
    case "MN" =>
    case "MS" =>
    case "MO" =>
    case "MT" =>
    case "NE" =>
    case "NV" =>
    case "NH" =>
    case "NJ" =>
    case "NM" =>
    case "NY" =>
    case "NC" =>
    case "ND" =>
    case "OH" =>
    case "OK" =>
    case "OR" =>
    case "PA" =>
    case "RI" =>
    case "SC" =>
    case "SD" =>
    case "TN" =>
    case "TX" =>
    case "UT" =>
    case "VT" =>
    case "VA" =>
    case "WA" =>
    case "WV" =>
    case "WI" =>
    case "WY" =>
    case _ =>
  }

  /** The two tables are inverse to each other. */
  lemma NameAbbrInverse(n: string, a: string)
    ensures NameToAbbr(n) == Some(a) <==> NameOfAbbr(a) == Some(n)
  {
    if NameToAbbr(n).Some? {
      NameToAbbrInverts(n);
    }
    if NameOfAbbr(a).Some? {
      NameOfAbbrInverts(a);
    }
  }

  predicate IsUpperAbbr(a: string) {
    |a| == 2 && IsAsciiUpper(a[0]) && IsAsciiUpper(a[1])
  }

  /** The abbreviations are two upper-case letters. */
  lemma AbbrShape(a: string)
    requires NameOfAbbr(a).Some?
    ensures IsUpperAbbr(a)
  {
  }

  /** A name of the table: lower-case letters and single inner spaces, longer
      than an abbreviation. */
  predicate PlainName(s: string) {
    && |s| > 2 && s[0] != ' ' && s[|s| - 1] != ' '
    && (forall i :: 0 <= i < |s| ==> IsAsciiLower(s[i]) || s[i] == ' ')
  }

  lemma PlainNames1()
    ensures PlainName("alabama")
    ensures PlainName("alaska")
    ensures PlainName("arizona")
    ensures PlainName("arkansas")
    ensures PlainName("california")
    ensures PlainName("colorado")
    ensures PlainName("connecticut")
    ensures PlainName("delaware")
    ensures PlainName("florida")
    ensures PlainName("georgia")
  {
  }

  lemma PlainNames2()
    ensures PlainName("hawaii")
    ensures PlainName("idaho")
    ensures PlainName("illinois")
    ensures PlainName("indiana")
    ensures PlainName("iowa")
    ensures PlainName("kansas")
    ensures PlainName("kentucky")
    ensures PlainName("louisiana")
    ensures PlainName("maine")
    ensures PlainName("maryland")
  {
  }

  lemma PlainNames3()
    ensures PlainName("massachusetts")
    ensures PlainName("michigan")
    ensures PlainName("minnesota")
    ensures PlainName("mississippi")
    ensures PlainName("missouri")
    ensures PlainName("montana")
    ensures PlainName("nebraska")
    ensures PlainName("nevada")
    ensures PlainName("new hampshire")
    ensures PlainName("new jersey")
  {
  }

  lemma PlainNames4()
    ensures PlainName("new mexico")
    ensures PlainName("new york")
    ensures PlainName("north carolina")
    ensures PlainName("north dakota")
    ensures PlainName("ohio")
    ensures PlainName("oklahoma")
    ensures PlainName("oregon")
    ensures PlainName("pennsylvania")
    ensures PlainName("rhode island")
    ensures PlainName("south carolina")
  {
  }

  lemma PlainNames5()
    ensures PlainName("south dakota")
    ensures PlainName("tennessee")
    ensures PlainName("texas")
    ensures PlainName("utah")
    ensures PlainName("vermont")
    ensures PlainName("virginia")
    ensures PlainName("washington")
    ensures PlainName("west virginia")
    ensures PlainName("wisconsin")
    ensures PlainName("wyoming")
  {
  }
  /** Every state name of the table is plain. */
  lemma NamePlain(n: string)
    requires NameToAbbr(n).Some?
    ensures PlainName(n)
  {
    PlainNames1();
    PlainNames2();
    PlainNames3();
    PlainNames4();
    PlainNames5();
  }

  /** Title-casing a plain name and normalising it again gives the name back. */
  lemma TitleCaseKey(n: string)
    requires PlainName(n)
    ensures ToKey(TitleCase(n)) == n
  {
    var t := TitleCase(n);
    assert !IsJsSpace(t[0]) && !IsJsSpace(t[|t| - 1]);
    StripFixpoint(t, IsJsSpace);
    assert Lower(t) == n;
  }

  /** The title-cased name of an abbreviation normalises to the table's name. */
  lemma AbbrToNameKey(a: string)
    requires NameOfAbbr(a).Some?
    ensures AbbrToName(a).Some? && ToKey(AbbrToName(a).value) == NameOfAbbr(a).value
  {
    NameAbbrInverse(NameOfAbbr(a).value, a);
    NamePlain(NameOfAbbr(a).value);
    TitleCaseKey(NameOfAbbr(a).value);
  }

  // ------------------------------------------------------- building the table

  function ItemId(it: Item): int {
    it.id
  }

  function NameKey(it: Item): string {
    ToKey(it.name)
  }

  /** One index of a state: each item's category is written under its key, in
      dataset order, so a later item with the same key overwrites an earlier one. */
  function Index<K(!new)>(items: seq<Item>, key: Item -> K): (m: map<K, Category>)
    ensures forall k :: k in m <==> exists j :: 0 <= j < |items| && key(items[j]) == k
  {
    if items == [] then map[]
    else
      var init := items[..|items| - 1];
      var m0 := Index(init, key);
      assert forall j :: 0 <= j < |init| ==> init[j] == items[j];
      m0[key(items[|items| - 1]) := StatusToCategory(items[|items| - 1].status)]
  }

  /** No item after position `j` has the key of item `j`. */
  ghost predicate LastWithKey<K(!new)>(items: seq<Item>, key: Item -> K, j: int)
    requires 0 <= j < |items|
  {
    forall m :: j < m < |items| ==> key(items[m]) != key(items[j])
  }

  /** Last write wins: the category stored under a key is the status of the last
      item with that key. */
  lemma {:induction false} IndexLastWins<K(!new)>(items: seq<Item>, key: Item -> K, j: int)
    requires 0 <= j < |items| && LastWithKey(items, key, j)
    ensures key(items[j]) in Index(items, key)
    ensures Index(items, key)[key(items[j])] == StatusToCategory(items[j].status)
  {
    if j < |items| - 1 {
      var init := items[..|items| - 1];
      assert init[j] == items[j];
      IndexLastWins(init, key, j);
    }
  }

  /** The two indices of one state. */
  function TableOf(items: seq<Item>): RegionTable {
    RegionTable(Index(items, ItemId), Index(items, NameKey))
  }

  /** The lower-case abbreviation key a full-name key is also stored under, when
      the name is a known state (the abbreviation must be truthy). */
  function AbbrKey(fullKey: string): Option<string> {
    match NameToAbbr(fullKey)
    case Some(a) => if a != "" then Some(Lower(a)) else None
    case None => None
  }

  /** The keys one dataset entry is stored under. */
  function KeysOf(e: StateEntry): (ks: set<string>)
    ensures ToKey(e.state) in ks
  {
    var full := ToKey(e.state);
    match AbbrKey(full)
    case Some(k) => {full, k}
    case None => {full}
  }

  /** Storing one region table under a set of keys, keeping every other key's table. */
  function RegisterUnder(st: StateTable, keys: set<string>, t: RegionTable): (r: StateTable)
    ensures r.Keys == st.Keys + keys
    ensures forall k :: k in r ==> r[k] == if k in keys then t else st[k]
  {
    map k | k in st.Keys + keys :: if k in keys then t else st[k]
  }

  /** The table after registering the entries in order, each under the keys
      `keysOf` gives it. */
  function BuildWith(entries: seq<StateEntry>, keysOf: StateEntry -> set<string>): StateTable {
    if entries == [] then map[]
    else
      var e := entries[|entries| - 1];
      RegisterUnder(BuildWith(entries[..|entries| - 1], keysOf), keysOf(e), TableOf(e.items))
  }

  /** `STATE_TABLE` after the build loop over the dataset. */
  function BuildSpec(entries: seq<StateEntry>): StateTable {
    BuildWith(entries, KeysOf)
  }

  /** A key is in the built table exactly when some entry is stored under it. */
  lemma {:induction false} BuildDomain(entries: seq<StateEntry>, keysOf: StateEntry -> set<string>, k: string)
    ensures k in BuildWith(entries, keysOf) <==> exists i :: 0 <= i < |entries| && k in keysOf(entries[i])
  {
    if entries != [] {
      var n := |entries| - 1;
      var init := entries[..n];
      BuildDomain(init, keysOf, k);
      if k in BuildWith(init, keysOf) {
        var i :| 0 <= i < n && k in keysOf(init[i]);
        assert init[i] == entries[i];
      } else if k !in keysOf(entries[n]) {
        forall i | 0 <= i < |entries| ensures k !in keysOf(entries[i]) {
          if i < n {
            assert init[i] == entries[i];
          }
        }
      }
    }
  }

  /** The last entry stored under a key owns it. */
  lemma {:induction false} BuildLastWins(entries: seq<StateEntry>, keysOf: StateEntry -> set<string>, i: int, k: string)
    requires 0 <= i < |entries| && k in keysOf(entries[i])
    requires forall j :: i < j < |entries| ==> k !in keysOf(entries[j])
    ensures k in BuildWith(entries, keysOf) && BuildWith(entries, keysOf)[k] == TableOf(entries[i].items)
  {
    if i < |entries| - 1 {
      var init := entries[..|entries| - 1];
      assert init[i] == entries[i];
      BuildLastWins(init, keysOf, i, k);
    }
  }

  /** Registering an entry writes its table under the full-name key, then under
      the lower-case abbreviation when the name is a known state. */
  lemma RegisterEntry(st: StateTable, e: StateEntry, t: RegionTable)
    ensures var full := ToKey(e.state);
            var abbr := NameToAbbr(full);
            RegisterUnder(st, KeysOf(e), t)
            == if abbr.Some? && abbr.value != "" then st[full := t][Lower(abbr.value) := t] else st[full := t]
  {
  }

  /** Both indices of one state, filled item by item. */
  method BuildRegionTable(items: seq<Item>) returns (t: RegionTable)
    ensures t == TableOf(items)
  {
    var byId: map<int, Category> := map[];
    var byName: map<string, Category> := map[];
    for j := 0 to |items|
      invariant byId == Index(items[..j], ItemId)
      invariant byName == Index(items[..j], NameKey)
    {
      var it := items[j];
      var cat := StatusToCategory(it.status);
      assert items[..j + 1][..j] == items[..j];
      byId := byId[it.id := cat];
      byName := byName[ToKey(it.name) := cat];
    }
    assert items[..|items|] == items;
    t := RegionTable(byId, byName);
  }

  /** The module-level loop that fills `STATE_TABLE`: for each entry, both
      indices item by item, then the full-name key and the abbreviation key. */
  method BuildStateTable(entries: seq<StateEntry>) returns (st: StateTable)
    ensures st == BuildSpec(entries)
  {
    st := map[];
    for i := 0 to |entries|
      invariant st == BuildWith(entries[..i], KeysOf)
    {
      var e := entries[i];
      ghost var previous := st;
      var t := BuildRegionTable(e.items);
      var fullKey := ToKey(e.state);
      st := st[fullKey := t];
      var abbr := NameToAbbr(fullKey);
      if abbr.Some? && abbr.value != "" {
        st := st[Lower(abbr.value) := t];
      }
      RegisterEntry(previous, e, t);
      assert entries[..i + 1][..i] == entries[..i] && entries[..i + 1][i] == e;
      assert BuildWith(entries[..i + 1], KeysOf) == RegisterUnder(previous, KeysOf(e), t);
    }
    assert entries[..|entries|] == entries;
  }

  // ---------------------------------------------------------------- lookups

  /** The key a state hint resolves to: an abbreviation (in any case) becomes its
      title-cased name, and the result is normalised. */
  function ResolveKey(state: string): string {
    ToKey(AbbrToName(Upper(state)).GetOr(state))
  }

  /** The resolved key first, then the plain lower-cased hint. */
  function FindTable(st: StateTable, state: string): Option<RegionTable> {
    var key := ResolveKey(state);
    if key in st then Some(st[key])
    else if Lower(state) in st then Some(st[Lower(state)])
    else None
  }

  /** `isSupportedState`: some table matches under either key. */
  function IsSupportedState(st: StateTable, state: string): (b: bool)
    ensures b <==> FindTable(st, state).Some?
  {
    ResolveKey(state) in st || Lower(state) in st
  }

  /** `getCategoryForState`: an id is looked up only by id, a name only by its
      normalised form. It answers nothing, and never fails, for an empty or
      unknown state. */
  function GetCategoryForState(st: StateTable, item: ItemRef, state: string): (r: Option<Category>)
    ensures state == "" || !IsSupportedState(st, state) ==> r == None
    ensures r.Some? && item.ById? ==>
              && FindTable(st, state).Some? && item.id in FindTable(st, state).value.byId
              && r.value == FindTable(st, state).value.byId[item.id]
    ensures r.Some? && item.ByName? ==>
              && FindTable(st, state).Some? && ToKey(item.name) in FindTable(st, state).value.byName
              && r.value == FindTable(st, state).value.byName[ToKey(item.name)]
  {
    if state == "" then None
    else
      match FindTable(st, state)
      case None => None
      case Some(t) =>
        match item
        case ById(id) => if id in t.byId then Some(t.byId[id]) else None
        case ByName(n) => if ToKey(n) in t.byName then Some(t.byName[ToKey(n)]) else None
  }

  /** An item name matches whatever its case and surrounding whitespace. */
  lemma ItemNameNormalised(st: StateTable, state: string, n1: string, n2: string)
    requires ToKey(n1) == ToKey(n2)
    ensures GetCategoryForState(st, ByName(n1), state) == GetCategoryForState(st, ByName(n2), state)
  {
  }

  /** The abbreviation in any case and the full name in any case and spacing
      reach the same table, and so classify every item alike. */
  lemma AbbreviationOrName(st: StateTable, item: ItemRef, a: string, s1: string, s2: string)
    requires NameOfAbbr(a).Some? && NameOfAbbr(a).value in st
    requires Upper(s1) == a && ToKey(s2) == NameOfAbbr(a).value
    ensures FindTable(st, s1) == FindTable(st, s2) == Some(st[NameOfAbbr(a).value])
    ensures GetCategoryForState(st, item, s1) == GetCategoryForState(st, item, s2)
  {
    var n := NameOfAbbr(a).value;
    AbbrShape(a);
    AbbrToNameKey(a);
    NameAbbrInverse(n, a);
    NamePlain(n);
    assert ResolveKey(s1) == n;
    var u := Upper(s2);
    if NameOfAbbr(u).Some? {
      AbbrShape(u);
      assert false;
    }
    assert ResolveKey(s2) == n;
  }

  /** In the built table, a state hint finds the table of the last entry stored
      under the key it resolves to. */
  lemma FindsBuiltTable(entries: seq<StateEntry>, i: int, state: string)
    requires 0 <= i < |entries| && ResolveKey(state) in KeysOf(entries[i])
    requires forall m :: i < m < |entries| ==> ResolveKey(state) !in KeysOf(entries[m])
    ensures FindTable(BuildSpec(entries), state) == Some(TableOf(entries[i].items))
  {
    BuildLastWins(entries, KeysOf, i, ResolveKey(state));
  }

  /** End to end: in the built table, an item is classified by the status of the
      last dataset item with its id, in the last entry stored under the state's
      key. */
  lemma ClassifiesById(entries: seq<StateEntry>, i: int, j: int, state: string)
    requires 0 <= i < |entries| && 0 <= j < |entries[i].items|
    requires state != "" && ResolveKey(state) in KeysOf(entries[i])
    requires forall m :: i < m < |entries| ==> ResolveKey(state) !in KeysOf(entries[m])
    requires LastWithKey(entries[i].items, ItemId, j)
    ensures GetCategoryForState(BuildSpec(entries), ById(entries[i].items[j].id), state)
         == Some(StatusToCategory(entries[i].items[j].status))
  {
    FindsBuiltTable(entries, i, state);
    IndexLastWins(entries[i].items, ItemId, j);
  }

  /** Within one state, the name index holds the status of the last item with
      that normalised name. */
  lemma NameIndexLastWins(items: seq<Item>, j: int)
    requires 0 <= j < |items|
    requires LastWithKey(items, NameKey, j)
    ensures NameKey(items[j]) in TableOf(items).byName
    ensures TableOf(items).byName[NameKey(items[j])] == StatusToCategory(items[j].status)
  {
    IndexLastWins(items, NameKey, j);
  }

  lemma LookupByName(st: StateTable, state: string, t: RegionTable, name: string)
    requires state != "" && FindTable(st, state) == Some(t) && ToKey(name) in t.byName
    ensures GetCategoryForState(st, ByName(name), state) == Some(t.byName[ToKey(name)])
  {
  }

  /** The same for a name: any spelling that normalises to the item's name. */
  lemma ClassifiesByName(entries: seq<StateEntry>, i: int, j: int, state: string, name: string)
    requires 0 <= i < |entries| && 0 <= j < |entries[i].items|
    requires state != "" && ResolveKey(state) in KeysOf(entries[i])
    requires forall m :: i < m < |entries| ==> ResolveKey(state) !in KeysOf(entries[m])
    requires LastWithKey(entries[i].items, NameKey, j)
    requires ToKey(name) == ToKey(entries[i].items[j].name)
    ensures GetCategoryForState(BuildSpec(entries), ByName(name), state)
         == Some(StatusToCategory(entries[i].items[j].status))
  {
    var t := TableOf(entries[i].items);
    FindsBuiltTable(entries, i, state);
    NameIndexLastWins(entries[i].items, j);
    LookupByName(BuildSpec(entries), state, t, name);
  }

  // ------------------------------------------------------- supported states

  /** The display name of a table key: the title-cased name when the key is a
      known state, the key itself otherwise. */
  function Proper(k: string): string {
    match NameToAbbr(k)
    case Some(a) => AbbrToName(a).GetOr(k)
    case None => k
  }

  /** A known state name is displayed title-cased. */
  lemma ProperOfKnownName(k: string)
    requires NameToAbbr(k).Some?
    ensures Proper(k) == TitleCase(k)
  {
    NameToAbbrInverts(k);
  }

  /** The names `listSupportedStates` reports: every key whose `length` (in
      UTF-16 code units) is not two, through `Proper`. */
  ghost predicate Reported(st: StateTable, p: string) {
    exists k :: k in st && Utf16Length(k) != 2 && Proper(k) == p
  }

  /** `listSupportedStates`: walks the table's keys, skips the two-character
      ones, keeps the first occurrence of each display name and sorts the list. */
  method ListSupportedStates(st: StateTable) returns (out: seq<string>)
    ensures forall p :: p in out <==> Reported(st, p)
    ensures forall i, j :: 0 <= i < j < |out| ==> StrLess(out[i], out[j])
  {
    var seen: set<string> := {};
    var list: seq<string> := [];
    var rest := st.Keys;
    while rest != {}
      invariant rest <= st.Keys
      invariant forall p :: p in seen <==> exists k :: k in st.Keys - rest && Utf16Length(k) != 2 && Proper(k) == p
      invariant forall p :: p in list <==> p in seen
      invariant NoDuplicates(list)
      decreases rest
    {
      var k :| k in rest;
      rest := rest - {k};
      if Utf16Length(k) != 2 {
        var proper := Proper(k);
        if proper !in seen {
          assert multiset(list)[proper] == 0;
          seen := seen + {proper};
          list := list + [proper];
        }
      }
    }
    StrKeyOrder(s => s, true, StrLess);
    out := SortBy(list, StrLess);
    SortBySorted(list, StrLess);
    SortedStrictly(out);
    forall p ensures p in out <==> p in list {
      assert p in multiset(out) <==> p in multiset(list);
    }
  }

  /** Every known state with a table is listed under its title-cased name. */
  lemma KnownStatesListed(st: StateTable, k: string)
    requires k in st && NameToAbbr(k).Some?
    ensures Reported(st, TitleCase(k))
  {
    NamePlain(k);
    ProperOfKnownName(k);
  }

  // ------------------------------------------------- inherited property keys

  /** The lower-case names `Object.prototype` provides to every plain object:
      after `toKey` or `toLowerCase` only these can reach an inherited property. */
  const InheritedKeys: set<string> := {"constructor", "__proto__"}

  /** A property read on the plain object `STATE_TABLE`. */
  datatype Slot = Own(table: RegionTable) | Inherited | Absent

  function ReadSlot(st: StateTable, key: string): (s: Slot)
    ensures s.Inherited? <==> key !in st && key in InheritedKeys
  {
    if key in st then Own(st[key])
    else if key in InheritedKeys then Inherited
    else Absent
  }

  /** JavaScript `a ?? b` on two property reads: an inherited property is not
      nullish, so it stops the fallback. */
  function FirstPresent(a: Slot, b: Slot): Slot {
    if a.Absent? then b else a
  }

  /** The result of a call that may raise a TypeError. */
  datatype Outcome<T> = Returns(value: T) | Throws

  /** `getCategoryForState` as written: reading `byId` or `byName` of an
      inherited property (the `Object` function or `Object.prototype`) yields
      undefined, and calling or indexing that throws. */
  function GetCategoryForStateAsWritten(st: StateTable, item: ItemRef, state: string): Outcome<Option<Category>> {
    if state == "" then Returns(None)
    else
      match FirstPresent(ReadSlot(st, ResolveKey(state)), ReadSlot(st, Lower(state)))
      case Absent => Returns(None)
      case Inherited => Throws
      case Own(t) =>
        match item
        case ById(id) => Returns(if id in t.byId then Some(t.byId[id]) else None)
        case ByName(n) => Returns(if ToKey(n) in t.byName then Some(t.byName[ToKey(n)]) else None)
  }

  /** `isSupportedState` as written: any non-nullish property counts. */
  function IsSupportedStateAsWritten(st: StateTable, state: string): bool {
    !FirstPresent(ReadSlot(st, ResolveKey(state)), ReadSlot(st, Lower(state))).Absent?
  }

  /** The hint "constructor" with no such state in the table makes the lookup
      throw and is reported as supported; the own-key lookup answers nothing. */
  lemma InheritedKeyCounterexample(st: StateTable, item: ItemRef)
    requires "constructor" !in st
    ensures GetCategoryForStateAsWritten(st, item, "constructor") == Throws
    ensures IsSupportedStateAsWritten(st, "constructor")
    ensures GetCategoryForState(st, item, "constructor") == None
    ensures !IsSupportedState(st, "constructor")
  {
    var u := Upper("constructor");
    assert |u| == 11;
    if NameOfAbbr(u).Some? {
      AbbrShape(u);
      assert false;
    }
    assert Trim("constructor") == "constructor" by {
      StripFixpoint("constructor", IsJsSpace);
    }
    assert Lower("constructor") == "constructor";
    assert ResolveKey("constructor") == "constructor";
  }

  /** Away from the inherited names the code as written and the corrected lookup
      agree. */
  lemma AsWrittenAgrees(st: StateTable, item: ItemRef, state: string)
    requires ResolveKey(state) !in InheritedKeys && Lower(state) !in InheritedKeys
    ensures GetCategoryForStateAsWritten(st, item, state) == Returns(GetCategoryForState(st, item, state))
    ensures IsSupportedStateAsWritten(st, state) == IsSupportedState(st, state)
  {
  }
}
