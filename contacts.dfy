/**
 * `findOrCreateContact`: resolve a phone number to one contact, tolerating a missing or extra
 * country-code prefix, and create the contact when no tier finds one.
 *
 * The tiers, in order: (1) a stored phone equal to the given one; (2) exactly one stored phone
 * ending with the given one; (3) after stripping 2, 3 or 1 leading characters (only while more than
 * six remain), exactly one stored phone equal to the remainder, which is then upgraded to the full
 * number; (4) a new contact. A hit fills a blank stored name with the given one and never
 * overwrites a stored name.
 */
module Contacts {
  import opened Wrappers
  import opened Text
  import opened Lists
  import opened Store

  function PhoneIs(phone: string): ContactRow -> bool {
    (r: ContactRow) => r.phone == phone
  }

  /** `LIKE '%phone'`, with `phone` taken literally. */
  function PhoneEndsWith(phone: string): ContactRow -> bool {
    (r: ContactRow) => EndsWith(r.phone, phone)
  }

  /** A truthy name: present and non-empty. */
  predicate Filled(name: Option<string>) {
    name.Some? && name.value != ""
  }

  /** `update(...).eq("id", updated.id)` */
  function ReplaceContact(rows: seq<ContactRow>, updated: ContactRow): seq<ContactRow> {
    seq(|rows|, i requires 0 <= i < |rows| => if rows[i].id == updated.id then updated else rows[i])
  }

  /** The name a hit leaves stored: the given name fills a blank one and never replaces a present one. */
  function KeptName(row: ContactRow, name: Option<string>): Option<string> {
    if Filled(name) && !Filled(row.name) then name else row.name
  }

  /** The prefix lengths tier 3 tries, in this order. */
  const StripLengths: seq<nat> := [2, 3, 1]

  /** Tier 3 over `lens`: the first length that leaves more than six characters and a unique exact match. */
  function StripSearch(rows: seq<ContactRow>, phone: string, lens: seq<nat>): Option<(nat, ContactRow)> {
    if lens == [] then None
    else if |phone| <= lens[0] + 6 then StripSearch(rows, phone, lens[1..])
    else match MaybeSingle(Filter(rows, PhoneIs(phone[lens[0]..])))
      case Some(row) => Some((lens[0], row))
      case None => StripSearch(rows, phone, lens[1..])
  }

  datatype Tier = Exact | Suffix | Stripped(len: nat) | Created

  /** The first of tiers 1-3 that finds a row, with the row it finds. */
  function Lookup(rows: seq<ContactRow>, phone: string): Option<(Tier, ContactRow)> {
    match MaybeSingle(Filter(rows, PhoneIs(phone)))
    case Some(row) => Some((Exact, row))
    case None =>
      match MaybeSingle(Filter(rows, PhoneEndsWith(phone)))
      case Some(row) => Some((Suffix, row))
      case None =>
        match StripSearch(rows, phone, StripLengths)
        case Some((len, row)) => Some((Stripped(len), row))
        case None => None
  }

  /** The contacts table and id counter after a resolution, the contact returned, and the tier that decided. */
  datatype Resolution = Resolution(rows: seq<ContactRow>, nextId: nat, contact: Option<ContactRow>, tier: Tier)

  /**
   * The whole resolution. With the contacts table failing (`up` false) every select finds
   * nothing and the insert returns nothing, so the result is no contact and no change.
   */
  function Resolve(rows: seq<ContactRow>, nextId: nat, phone: string, name: Option<string>, up: bool): Resolution {
    if !up then Resolution(rows, nextId, None, Created)
    else match Lookup(rows, phone)
      case Some((Stripped(len), row)) =>
        var upgraded := row.(phone := phone, name := KeptName(row, name));
        Resolution(ReplaceContact(rows, upgraded), nextId, Some(upgraded), Stripped(len))
      case Some((tier, row)) =>
        if Filled(name) && !Filled(row.name) then
          Resolution(ReplaceContact(rows, row.(name := name)), nextId, Some(row.(name := name)), tier)
        else
          Resolution(rows, nextId, Some(row), tier)
      case None =>
        var created := ContactRow(nextId, phone, name, false);
        Resolution(rows + [created], nextId + 1, Some(created), Created)
  }

  /** The resolver against the store: tier queries in order, the prefix loop, then the insert. */
  method FindOrCreateContact(db: Db, phone: string, name: Option<string>) returns (contact: Option<ContactRow>)
    requires db.Valid()
    modifies db`contacts, db`nextId
    ensures var r := Resolve(old(db.contacts), old(db.nextId), phone, name, ContactsTable !in db.down);
      db.contacts == r.rows && db.nextId == r.nextId && contact == r.contact
    ensures db.Valid()
  {
    var up := ContactsTable !in db.down;
    ghost var r := Resolve(db.contacts, db.nextId, phone, name, up);
    ResolveKeepsTableValid(db.contacts, db.nextId, phone, name, up);
    WithContacts(db.State(), r.rows, r.nextId);
    var exact := if up then MaybeSingle(Filter(db.contacts, PhoneIs(phone))) else None;
    if exact.Some? {
      var row := exact.value;
      if Filled(name) && !Filled(row.name) {
        db.contacts := ReplaceContact(db.contacts, row.(name := name));
        return Some(row.(name := name));
      }
      return exact;
    }

    var bySuffix := if up then MaybeSingle(Filter(db.contacts, PhoneEndsWith(phone))) else None;
    if bySuffix.Some? {
      var row := bySuffix.value;
      if Filled(name) && !Filled(row.name) {
        db.contacts := ReplaceContact(db.contacts, row.(name := name));
        return Some(row.(name := name));
      }
      return bySuffix;
    }

    var i := 0;
    while i < |StripLengths|
      invariant 0 <= i <= |StripLengths|
      invariant db.contacts == old(db.contacts) && db.nextId == old(db.nextId)
      invariant up ==> StripSearch(db.contacts, phone, StripLengths) == StripSearch(db.contacts, phone, StripLengths[i..])
    {
      var stripLen := StripLengths[i];
      assert StripLengths[i..][1..] == StripLengths[i + 1..];
      if |phone| > stripLen + 6 {
        var stripped := phone[stripLen..];
        var byStripped := if up then MaybeSingle(Filter(db.contacts, PhoneIs(stripped))) else None;
        if byStripped.Some? {
          var row := byStripped.value;
          var upgraded := row.(phone := phone, name := KeptName(row, name));
          db.contacts := ReplaceContact(db.contacts, upgraded);
          return Some(upgraded);
        }
      }
      i := i + 1;
    }

    if !up {
      return None;
    }
    var created := ContactRow(db.nextId, phone, name, false);
    db.contacts := db.contacts + [created];
    db.nextId := db.nextId + 1;
    return Some(created);
  }

  // ---------------------------------------------------------------------------------------------
  // Queries over a table whose ids and phones are unique

  lemma ReplaceById(rows: seq<ContactRow>, nextId: nat, k: nat, updated: ContactRow)
    requires ContactsOk(rows, nextId) && k < |rows| && updated.id == rows[k].id
    ensures ReplaceContact(rows, updated) == rows[k := updated]
  {
  }

  /** With unique phones, the exact query matches one row exactly when some row has the phone. */
  lemma ExactQuery(rows: seq<ContactRow>, nextId: nat, phone: string)
    requires ContactsOk(rows, nextId)
    ensures forall k :: 0 <= k < |rows| && rows[k].phone == phone ==> Filter(rows, PhoneIs(phone)) == [rows[k]]
    ensures (forall k :: 0 <= k < |rows| ==> rows[k].phone != phone) ==> Filter(rows, PhoneIs(phone)) == []
    ensures |Filter(rows, PhoneIs(phone))| == 1 ==> exists k :: 0 <= k < |rows| && rows[k].phone == phone
  {
    FilterSingle(rows, PhoneIs(phone));
    forall k | 0 <= k < |rows| && rows[k].phone == phone ensures Filter(rows, PhoneIs(phone)) == [rows[k]] {
      assert OnlyMatch(rows, PhoneIs(phone), k);
    }
    if forall k :: 0 <= k < |rows| ==> rows[k].phone != phone {
      FilterNone(rows, PhoneIs(phone));
    }
  }

  /** Stripping `len` digits leaves too short a number, or one no row holds. */
  predicate StripMiss(rows: seq<ContactRow>, phone: string, len: nat) {
    |phone| <= len + 6 || NoExact(rows, phone[len..])
  }

  /** Every length before position p misses. */
  predicate MissedBefore(rows: seq<ContactRow>, phone: string, lens: seq<nat>, p: nat)
    requires p <= |lens|
  {
    forall j :: 0 <= j < p ==> StripMiss(rows, phone, lens[j])
  }

  /** Length `lens[p]` finds `row`, and every earlier length missed. */
  predicate FoundAt(rows: seq<ContactRow>, phone: string, lens: seq<nat>, p: int, len: nat, row: ContactRow) {
    0 <= p < |lens| && lens[p] == len && |phone| > len + 6 && row in rows && row.phone == phone[len..]
    && MissedBefore(rows, phone, lens, p)
  }

  /** What tier 3 finds: the first qualifying length in order, on a row holding the stripped phone. */
  lemma {:induction false} StripSearchFinds(rows: seq<ContactRow>, nextId: nat, phone: string, lens: seq<nat>)
    requires ContactsOk(rows, nextId)
    ensures var r := StripSearch(rows, phone, lens);
      r.Some? ==> exists p :: FoundAt(rows, phone, lens, p, r.value.0, r.value.1)
    ensures StripSearch(rows, phone, lens).None? ==> MissedBefore(rows, phone, lens, |lens|)
  {
    if lens != [] {
      StripSearchFinds(rows, nextId, phone, lens[1..]);
      if |phone| <= lens[0] + 6 || MaybeSingle(Filter(rows, PhoneIs(phone[lens[0]..]))).None? {
        assert StripSearch(rows, phone, lens) == StripSearch(rows, phone, lens[1..]);
        if |phone| > lens[0] + 6 {
          ExactQuery(rows, nextId, phone[lens[0]..]);
        }
        assert StripMiss(rows, phone, lens[0]);
        MissShifts(rows, phone, lens);
        match StripSearch(rows, phone, lens[1..])
        case Some((len, row)) => {
          var p :| FoundAt(rows, phone, lens[1..], p, len, row);
          assert FoundAt(rows, phone, lens, p + 1, len, row);
          assert StripSearch(rows, phone, lens) == Some((len, row));
        }
        case None =>
      } else {
        FirstLengthHits(rows, nextId, phone, lens);
      }
    }
  }

  /** A miss at the first length moves what the rest of the lengths found one position on. */
  lemma MissShifts(rows: seq<ContactRow>, phone: string, lens: seq<nat>)
    requires lens != [] && StripMiss(rows, phone, lens[0])
    ensures MissedBefore(rows, phone, lens[1..], |lens| - 1) ==> MissedBefore(rows, phone, lens, |lens|)
    ensures forall p, len: nat, row :: FoundAt(rows, phone, lens[1..], p, len, row) ==> FoundAt(rows, phone, lens, p + 1, len, row)
  {
    forall p, len: nat, row | FoundAt(rows, phone, lens[1..], p, len, row)
      ensures FoundAt(rows, phone, lens, p + 1, len, row)
    {
      assert forall j :: 0 <= j < p ==> lens[1..][j] == lens[j + 1];
    }
  }

  /** The first length finds the one row holding the stripped phone. */
  lemma FirstLengthHits(rows: seq<ContactRow>, nextId: nat, phone: string, lens: seq<nat>)
    requires ContactsOk(rows, nextId) && lens != [] && |phone| > lens[0] + 6
    requires MaybeSingle(Filter(rows, PhoneIs(phone[lens[0]..]))).Some?
    ensures var row := MaybeSingle(Filter(rows, PhoneIs(phone[lens[0]..]))).value;
      StripSearch(rows, phone, lens) == Some((lens[0], row)) && FoundAt(rows, phone, lens, 0, lens[0], row)
  {
    var stripped := phone[lens[0]..];
    FilterMembers(rows, PhoneIs(stripped));
    assert Filter(rows, PhoneIs(stripped))[0] in Filter(rows, PhoneIs(stripped));
  }

  /** No stored phone equals `phone`. */
  predicate NoExact(rows: seq<ContactRow>, phone: string) {
    forall i :: 0 <= i < |rows| ==> rows[i].phone != phone
  }

  /** Tier 3 finds nothing for the `p`-th strip length. */
  predicate StripFails(rows: seq<ContactRow>, phone: string, p: nat)
    requires p < |StripLengths|
  {
    StripMiss(rows, phone, StripLengths[p])
  }

  /** Which row each tier finds, and what the earlier tiers must have missed. */
  lemma LookupCases(rows: seq<ContactRow>, nextId: nat, phone: string)
    requires ContactsOk(rows, nextId)
    ensures match Lookup(rows, phone)
      case Some((Exact, row)) => exists k :: 0 <= k < |rows| && rows[k] == row && row.phone == phone
      case Some((Suffix, row)) =>
        NoExact(rows, phone) && exists k :: OnlyMatch(rows, PhoneEndsWith(phone), k) && rows[k] == row
      case Some((Stripped(len), row)) =>
        NoExact(rows, phone) && |Filter(rows, PhoneEndsWith(phone))| != 1
        && (exists p :: 0 <= p < |StripLengths| && StripLengths[p] == len && |phone| > len + 6
              && (forall j :: 0 <= j < p ==> StripFails(rows, phone, j))
              && exists k :: 0 <= k < |rows| && rows[k] == row && row.phone == phone[len..])
      case Some((Created, _)) => false
      case None =>
        NoExact(rows, phone) && |Filter(rows, PhoneEndsWith(phone))| != 1
        && forall j :: 0 <= j < |StripLengths| ==> StripFails(rows, phone, j)
  {
    ExactQuery(rows, nextId, phone);
    FilterMembers(rows, PhoneIs(phone));
    FilterSingle(rows, PhoneEndsWith(phone));
    StripSearchFinds(rows, nextId, phone, StripLengths);
    var exact := MaybeSingle(Filter(rows, PhoneIs(phone)));
    if exact.Some? {
      assert exact.value in Filter(rows, PhoneIs(phone));
    }
  }

  /** Tier 1: a stored phone equal to the given one decides, whatever else is stored. */
  lemma ExactMatchWins(rows: seq<ContactRow>, nextId: nat, phone: string, name: Option<string>, k: nat)
    requires ContactsOk(rows, nextId) && k < |rows| && rows[k].phone == phone
    ensures var r := Resolve(rows, nextId, phone, name, true);
      var hit := rows[k].(name := KeptName(rows[k], name));
      r.tier == Exact && r.contact == Some(hit) && r.rows == rows[k := hit] && r.nextId == nextId
  {
    ExactQuery(rows, nextId, phone);
    ReplaceById(rows, nextId, k, rows[k].(name := name));
    assert rows[k := rows[k]] == rows;
  }

  /** Tier 2: with no exact match, the one stored phone that ends with the given one decides; it keeps its longer phone. */
  lemma UniqueSuffixMatch(rows: seq<ContactRow>, nextId: nat, phone: string, name: Option<string>, k: nat)
    requires ContactsOk(rows, nextId) && NoExact(rows, phone) && OnlyMatch(rows, PhoneEndsWith(phone), k)
    ensures var r := Resolve(rows, nextId, phone, name, true);
      var hit := rows[k].(name := KeptName(rows[k], name));
      r.tier == Suffix && r.contact == Some(hit) && r.rows == rows[k := hit] && r.nextId == nextId
  {
    ExactQuery(rows, nextId, phone);
    FilterSingle(rows, PhoneEndsWith(phone));
    ReplaceById(rows, nextId, k, rows[k].(name := name));
    assert rows[k := rows[k]] == rows;
  }

  /** Tier 2 finds nothing when two stored phones end with the given one. */
  lemma AmbiguousSuffixFallsThrough(rows: seq<ContactRow>, nextId: nat, phone: string, name: Option<string>, i: nat, j: nat)
    requires ContactsOk(rows, nextId) && NoExact(rows, phone)
    requires i < j < |rows| && EndsWith(rows[i].phone, phone) && EndsWith(rows[j].phone, phone)
    ensures Resolve(rows, nextId, phone, name, true).tier !in {Exact, Suffix}
  {
    ExactQuery(rows, nextId, phone);
    FilterSingle(rows, PhoneEndsWith(phone));
    forall k | 0 <= k < |rows| ensures !OnlyMatch(rows, PhoneEndsWith(phone), k) {
      assert k != i || k != j;
    }
  }

  /**
   * Tier 3: the first length of 2, 3, 1 that leaves more than six characters whose remainder is a
   * stored phone decides, and that contact's phone is upgraded to the given full number.
   */
  lemma StrippedTier(rows: seq<ContactRow>, nextId: nat, phone: string, name: Option<string>)
    requires ContactsOk(rows, nextId)
    ensures var r := Resolve(rows, nextId, phone, name, true);
      r.tier.Stripped? ==>
        NoExact(rows, phone) && |Filter(rows, PhoneEndsWith(phone))| != 1
        && (exists p :: 0 <= p < |StripLengths| && StripLengths[p] == r.tier.len
              && forall j :: 0 <= j < p ==> StripFails(rows, phone, j))
        && |phone| > r.tier.len + 6
        && exists k :: 0 <= k < |rows| && rows[k].phone == phone[r.tier.len..] && EndsWith(phone, rows[k].phone)
             && r.contact == Some(rows[k].(phone := phone, name := KeptName(rows[k], name)))
             && r.rows == rows[k := r.contact.value] && r.nextId == nextId
  {
    LookupCases(rows, nextId, phone);
    match Lookup(rows, phone)
    case Some((Stripped(len), row)) => {
      var k :| 0 <= k < |rows| && rows[k] == row && row.phone == phone[len..];
      ReplaceById(rows, nextId, k, row.(phone := phone, name := KeptName(row, name)));
      assert phone[|phone| - |row.phone|..] == phone[len..];
    }
    case _ =>
  }

  /** Tier 4: a contact is created exactly when every tier misses, with the given phone and name. */
  lemma CreatesOnlyWhenNothingMatches(rows: seq<ContactRow>, nextId: nat, phone: string, name: Option<string>)
    requires ContactsOk(rows, nextId)
    ensures var r := Resolve(rows, nextId, phone, name, true);
      (r.tier == Created <==>
         NoExact(rows, phone) && |Filter(rows, PhoneEndsWith(phone))| != 1
         && forall j :: 0 <= j < |StripLengths| ==> StripFails(rows, phone, j))
      && (r.tier == Created ==>
            r.rows == rows + [ContactRow(nextId, phone, name, false)] && r.nextId == nextId + 1
            && r.contact == Some(ContactRow(nextId, phone, name, false)))
  {
    LookupCases(rows, nextId, phone);
    match Lookup(rows, phone)
    case Some((Exact, row)) => {
      var k :| 0 <= k < |rows| && rows[k] == row && row.phone == phone;
      assert !NoExact(rows, phone);
    }
    case Some((Stripped(len), row)) => {
      var p :| 0 <= p < |StripLengths| && StripLengths[p] == len && |phone| > len + 6
        && exists k :: 0 <= k < |rows| && rows[k] == row && row.phone == phone[len..];
      assert !StripFails(rows, phone, p);
    }
    case _ =>
  }

  /** The tier lemmas combined: the shape of the table after any resolution. */
  /**
   * Tiers 1-3 update the row at k in place: its name only when unset, its phone only by the tier-3
   * upgrade; the tier says why that row was chosen.
   */
  predicate UpdatedAt(rows: seq<ContactRow>, phone: string, name: Option<string>, r: Resolution, k: int) {
    0 <= k < |rows| && r.contact.Some? && r.rows == rows[k := r.contact.value]
    && r.contact.value == rows[k].(phone := r.contact.value.phone, name := KeptName(rows[k], name))
    && (r.tier == Exact ==> rows[k].phone == phone)
    && (r.tier == Suffix ==> (NoExact(rows, phone) && rows[k].phone == r.contact.value.phone
          && OnlyMatch(rows, PhoneEndsWith(phone), k)))
    && (r.tier.Stripped? ==> (NoExact(rows, phone) && r.contact.value.phone == phone
          && EndsWith(phone, rows[k].phone)))
    && (!r.tier.Stripped? ==> r.contact.value.phone == rows[k].phone)
  }

  lemma ResolveCases(rows: seq<ContactRow>, nextId: nat, phone: string, name: Option<string>)
    requires ContactsOk(rows, nextId)
    ensures var r := Resolve(rows, nextId, phone, name, true);
      r.contact.Some?
      && (r.tier == Created ==>
            r.rows == rows + [r.contact.value] && r.nextId == nextId + 1
            && r.contact.value == ContactRow(nextId, phone, name, false) && NoExact(rows, phone))
      && (r.tier != Created ==> r.nextId == nextId && exists k :: UpdatedAt(rows, phone, name, r, k))
  {
    LookupCases(rows, nextId, phone);
    match Lookup(rows, phone)
    case Some((Exact, row)) => {
      var k :| 0 <= k < |rows| && rows[k] == row && row.phone == phone;
      ExactMatchWins(rows, nextId, phone, name, k);
      assert UpdatedAt(rows, phone, name, Resolve(rows, nextId, phone, name, true), k);
    }
    case Some((Suffix, row)) => {
      var k :| OnlyMatch(rows, PhoneEndsWith(phone), k) && rows[k] == row;
      UniqueSuffixMatch(rows, nextId, phone, name, k);
      assert UpdatedAt(rows, phone, name, Resolve(rows, nextId, phone, name, true), k);
    }
    case Some((Stripped(len), row)) => {
      StrippedTier(rows, nextId, phone, name);
      var r := Resolve(rows, nextId, phone, name, true);
      var k :| 0 <= k < |rows| && rows[k].phone == phone[r.tier.len..] && EndsWith(phone, rows[k].phone)
        && r.contact == Some(rows[k].(phone := phone, name := KeptName(rows[k], name)))
        && r.rows == rows[k := r.contact.value] && r.nextId == nextId;
      assert UpdatedAt(rows, phone, name, r, k);
    }
    case None => {
      CreatesOnlyWhenNothingMatches(rows, nextId, phone, name);
    }
    case _ =>
  }

  /**
   * Existing contacts are never lost or reordered, at most one is added, a stored name is never
   * overwritten, the opt-out flag is untouched, and a phone changes only by the tier-3 upgrade.
   */
  lemma ResolveKeepsContacts(rows: seq<ContactRow>, nextId: nat, phone: string, name: Option<string>, up: bool)
    requires ContactsOk(rows, nextId)
    ensures var r := Resolve(rows, nextId, phone, name, up);
      |rows| <= |r.rows| <= |rows| + 1
      && (|r.rows| == |rows| + 1 <==> up && r.tier == Created)
      && forall i :: 0 <= i < |rows| ==>
           r.rows[i].id == rows[i].id && r.rows[i].optedOut == rows[i].optedOut
           && (Filled(rows[i].name) ==> r.rows[i].name == rows[i].name)
           && (r.rows[i].name != rows[i].name ==> Filled(name) && r.rows[i].name == name)
           && (r.rows[i].phone != rows[i].phone ==>
                 r.tier.Stripped? && r.rows[i].phone == phone && EndsWith(phone, rows[i].phone))
  {
    if up {
      ResolveCases(rows, nextId, phone, name);
    }
  }

  /** The contact returned is the stored row, and its phone is the given one or ends with it. */
  lemma ResolvedContact(rows: seq<ContactRow>, nextId: nat, phone: string, name: Option<string>, up: bool)
    requires ContactsOk(rows, nextId)
    ensures var r := Resolve(rows, nextId, phone, name, up);
      (r.contact.Some? <==> up)
      && (r.contact.Some? ==>
            r.contact.value in r.rows
            && (r.contact.value.phone == phone || (r.tier == Suffix && EndsWith(r.contact.value.phone, phone))))
  {
    if up {
      ResolveCases(rows, nextId, phone, name);
      var r := Resolve(rows, nextId, phone, name, up);
      if r.tier == Created {
        assert r.rows[|rows|] == r.contact.value;
      } else {
        var k :| UpdatedAt(rows, phone, name, r, k);
        assert r.rows[k] == r.contact.value;
        if r.tier == Suffix {
          assert OnlyMatch(rows, PhoneEndsWith(phone), k);
        }
      }
    }
  }

  /** Resolution keeps the table's ids and phones unique and below the counter. */
  lemma ResolveKeepsTableValid(rows: seq<ContactRow>, nextId: nat, phone: string, name: Option<string>, up: bool)
    requires ContactsOk(rows, nextId)
    ensures var r := Resolve(rows, nextId, phone, name, up); ContactsOk(r.rows, r.nextId) && nextId <= r.nextId
  {
    if up {
      ResolveCases(rows, nextId, phone, name);
    }
  }

  /**
   * A second resolution of the same number finds the contact the first one returned and adds
   * nothing: repeated calls never create two contacts for one number.
   */
  lemma ResolveTwice(rows: seq<ContactRow>, nextId: nat, phone: string, name: Option<string>, name2: Option<string>)
    requires ContactsOk(rows, nextId)
    ensures var r1 := Resolve(rows, nextId, phone, name, true);
      var r2 := Resolve(r1.rows, r1.nextId, phone, name2, true);
      r1.contact.Some? && r2.contact.Some? && r2.contact.value.id == r1.contact.value.id
      && r2.tier in {Exact, Suffix} && |r2.rows| == |r1.rows| && r2.nextId == r1.nextId
  {
    var r1 := Resolve(rows, nextId, phone, name, true);
    ResolveCases(rows, nextId, phone, name);
    ResolveKeepsTableValid(rows, nextId, phone, name, true);
    if r1.tier == Created {
      ExactMatchWins(r1.rows, r1.nextId, phone, name2, |rows|);
    } else {
      var k :| UpdatedAt(rows, phone, name, r1, k);
      FoundAgain(rows, nextId, phone, name, name2, r1, k);
    }
  }

  /** A row that tiers 1-3 updated is found again, by tier 1 or by its unique suffix. */
  lemma FoundAgain(rows: seq<ContactRow>, nextId: nat, phone: string, name: Option<string>, name2: Option<string>,
                   r1: Resolution, k: int)
    requires ContactsOk(r1.rows, r1.nextId) && UpdatedAt(rows, phone, name, r1, k) && r1.tier != Created
    ensures var r2 := Resolve(r1.rows, r1.nextId, phone, name2, true);
      r2.contact.Some? && r2.contact.value.id == r1.contact.value.id
      && r2.tier in {Exact, Suffix} && |r2.rows| == |r1.rows| && r2.nextId == r1.nextId
  {
    if r1.tier == Suffix {
      assert forall i :: 0 <= i < |rows| ==> r1.rows[i].phone == rows[i].phone;
      assert OnlyMatch(r1.rows, PhoneEndsWith(phone), k);
      UniqueSuffixMatch(r1.rows, r1.nextId, phone, name2, k);
    } else {
      assert r1.rows[k] == r1.contact.value && r1.contact.value.phone == phone;
      ExactMatchWins(r1.rows, r1.nextId, phone, name2, k);
    }
  }

  /** The stored short number of the header comment: a WhatsApp number with the prefix 54 upgrades it. */
  lemma UpgradeExample()
    ensures var rows := [ContactRow(7, "1167910548", None, false)];
      Resolve(rows, 8, "541167910548", Some("Ana"), true)
        == Resolution([ContactRow(7, "541167910548", Some("Ana"), false)], 8,
                      Some(ContactRow(7, "541167910548", Some("Ana"), false)), Stripped(2))
  {
    var rows := [ContactRow(7, "1167910548", None, false)];
    var phone := "541167910548";
    UpgradeLookup(rows, phone);
    var up := rows[0].(phone := phone, name := KeptName(rows[0], Some("Ana")));
    assert up == ContactRow(7, "541167910548", Some("Ana"), false);
    assert ReplaceContact(rows, up) == [up];
  }

  /** The lookup of the example: no exact or suffix match, the first stripped length finds the row. */
  lemma UpgradeLookup(rows: seq<ContactRow>, phone: string)
    requires rows == [ContactRow(7, "1167910548", None, false)] && phone == "541167910548"
    ensures Lookup(rows, phone) == Some((Stripped(2), rows[0]))
  {
    ExactQuery(rows, 8, phone);
    assert !EndsWith(rows[0].phone, phone);
    FilterNone(rows, PhoneEndsWith(phone));
    ExactQuery(rows, 8, phone[2..]);
    assert phone[2..] == rows[0].phone;
    assert StripSearch(rows, phone, StripLengths) == Some((2, rows[0]));
  }

  /** The stored full number of the header comment: a CSV number without the prefix finds it by suffix. */
  lemma SuffixExample()
    ensures var rows := [ContactRow(7, "541167910548", Some("Ana"), false)];
      Resolve(rows, 8, "1167910548", None, true)
        == Resolution(rows, 8, Some(ContactRow(7, "541167910548", Some("Ana"), false)), Suffix)
  {
    var rows := [ContactRow(7, "541167910548", Some("Ana"), false)];
    var phone := "1167910548";
    ExactQuery(rows, 8, phone);
    assert EndsWith(rows[0].phone, phone);
    assert OnlyMatch(rows, PhoneEndsWith(phone), 0);
    FilterSingle(rows, PhoneEndsWith(phone));
  }

  /**
   * The header comment's tier 3 promises a match whenever the given phone ends with the stored
   * one; the code only tries the given phone without its first 2, 3 or 1 characters, so a
   * stored number shorter than that is not found and a second contact is created.
   */
  lemma ShortStoredNotFound()
    ensures var rows := [ContactRow(7, "67910548", None, false)];
      var created := ContactRow(8, "541167910548", None, false);
      EndsWith("541167910548", rows[0].phone)
      && Resolve(rows, 8, "541167910548", None, true) == Resolution(rows + [created], 9, Some(created), Created)
  {
    ShortLookup([ContactRow(7, "67910548", None, false)], "541167910548");
  }

  /** The lookup of that example: every tier misses. */
  lemma ShortLookup(rows: seq<ContactRow>, phone: string)
    requires rows == [ContactRow(7, "67910548", None, false)] && phone == "541167910548"
    ensures Lookup(rows, phone) == None
  {
    ExactQuery(rows, 8, phone);
    assert !EndsWith(rows[0].phone, phone);
    FilterNone(rows, PhoneEndsWith(phone));
    ShortStripMisses(rows, phone);
  }

  lemma ShortStripMisses(rows: seq<ContactRow>, phone: string)
    requires rows == [ContactRow(7, "67910548", None, false)] && phone == "541167910548"
    ensures StripSearch(rows, phone, StripLengths) == None
  {
    ShortMisses(rows, phone, 2);
    ShortMisses(rows, phone, 3);
    ShortMisses(rows, phone, 1);
    assert [1][1..] == [];
    assert StripSearch(rows, phone, [1]) == None;
    assert [3, 1][1..] == [1];
    assert StripSearch(rows, phone, [3, 1]) == None;
    assert StripLengths[1..] == [3, 1];
  }

  lemma ShortMisses(rows: seq<ContactRow>, phone: string, len: nat)
    requires rows == [ContactRow(7, "67910548", None, false)] && phone == "541167910548" && len <= 3
    ensures Filter(rows, PhoneIs(phone[len..])) == []
  {
    assert |phone[len..]| != |rows[0].phone|;
    ExactQuery(rows, 8, phone[len..]);
  }
}
