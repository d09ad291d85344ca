/** `buildDuplicateCandidates`: an index built by grouping, against the pairwise relation it stands for. */
module Duplicates {
  import opened Tables

  datatype ContactRow = ContactRow(id: Id, phone: Option<string>, email: Option<string>)
  /** A contact-owned row of `platform_identities`. */
  datatype IdentityRow = IdentityRow(owner: Id, channel: string, user: string)

  datatype Reason = SamePhone | SameEmail | SameIdentity(channel: string)

  /** `normalizePhone` and `toLowerCase`, whose bodies do not matter. */
  datatype Normal = Normal(phone: string -> string, lower: string -> string)

  /** contact -> candidate -> reasons */
  type Index = map<Id, map<Id, set<Reason>>>

  const SEPARATOR := '\U{1F}'

  // ---- keys ----

  function PhoneKey(n: Normal, c: ContactRow): (k: Option<string>) {
    if c.phone.Some? && c.phone.value != "" then Some(n.phone(c.phone.value)) else None
  }

  function EmailKey(n: Normal, c: ContactRow): (k: Option<string>) {
    if c.email.Some? && c.email.value != "" then Some(n.lower(c.email.value)) else None
  }

  predicate AllDigits(s: string) {
    s != "" && forall i | 0 <= i < |s| :: '0' <= s[i] <= '9'
  }

  function Comparable(n: Normal, r: IdentityRow): (k: Option<string>) {
    var v := if r.channel == "email" then Some(n.lower(r.user))
             else if r.channel == "phone" || AllDigits(r.user) then Some(n.phone(r.user))
             else None;
    if v == Some("") then None else v
  }

  function IdentityKey(n: Normal, r: IdentityRow): (k: Option<string>) {
    if Comparable(n, r).Some? then Some(r.channel + [SEPARATOR] + Comparable(n, r).value) else None
  }

  // ---- the naive relation ----

  ghost predicate ShareContactKey(cs: seq<ContactRow>, key: ContactRow -> Option<string>, a: Id, b: Id) {
    exists x, y :: x in cs && y in cs && x.id == a && y.id == b && key(x).Some? && key(x) == key(y)
  }

  /** The channel a group's reason names: that of its first row. */
  function FirstChannel(n: Normal, rows: seq<IdentityRow>, k: string): (c: string) {
    if rows == [] then ""
    else if IdentityKey(n, rows[0]) == Some(k) then rows[0].channel
    else FirstChannel(n, rows[1..], k)
  }

  ghost predicate ShareIdentityKey(n: Normal, rows: seq<IdentityRow>, a: Id, b: Id, channel: string) {
    exists x, y :: x in rows && y in rows && x.owner == a && y.owner == b
                   && IdentityKey(n, x).Some? && IdentityKey(n, x) == IdentityKey(n, y)
                   && channel == FirstChannel(n, rows, IdentityKey(n, x).value)
  }

  ghost predicate Related(n: Normal, cs: seq<ContactRow>, rows: seq<IdentityRow>, a: Id, b: Id, r: Reason) {
    a != b && match r
              case SamePhone => ShareContactKey(cs, c => PhoneKey(n, c), a, b)
              case SameEmail => ShareContactKey(cs, c => EmailKey(n, c), a, b)
              case SameIdentity(channel) => ShareIdentityKey(n, rows, a, b, channel)
  }

  lemma RelatedIsSymmetric(n: Normal, cs: seq<ContactRow>, rows: seq<IdentityRow>, a: Id, b: Id, r: Reason)
    ensures Related(n, cs, rows, a, b, r) <==> Related(n, cs, rows, b, a, r)
  {
  }

  // ---- the index ----

  predicate Has(ix: Index, a: Id, b: Id, r: Reason) {
    a in ix && b in ix[a] && r in ix[a][b]
  }

  ghost predicate NoEmptyReasons(ix: Index) {
    forall a, b | a in ix && b in ix[a] :: ix[a][b] != {}
  }

  function AddCandidate(ix: Index, left: Id, right: Id, reason: Reason): (ix': Index)
    ensures forall a, b, r ::
              Has(ix', a, b, r)
              <==> Has(ix, a, b, r) || (left != right && a == left && b == right && r == reason)
    ensures NoEmptyReasons(ix) ==> NoEmptyReasons(ix')
  {
    if left == right then ix
    else
      var row := if left in ix then ix[left] else map[];
      var reasons := if right in row then row[right] else {};
      ix[left := row[right := reasons + {reason}]]
  }

  /** `ix'` adds exactly the pairs of different ids in `pair`, for one reason. */
  ghost predicate Grown(ix: Index, ix': Index, reason: Reason, pair: (Id, Id) -> bool) {
    && (forall a, b, r :: Has(ix', a, b, r) <==> Has(ix, a, b, r) || (r == reason && a != b && pair(a, b)))
    && (NoEmptyReasons(ix) ==> NoEmptyReasons(ix'))
  }

  /** Pairs the outer loop has finished: one of the two stands before position `i`. */
  ghost predicate Covered(ids: seq<Id>, i: nat, a: Id, b: Id)
    requires i <= |ids|
  {
    (a in ids[..i] && b in ids) || (b in ids[..i] && a in ids)
  }

  ghost predicate CoveredTo(ids: seq<Id>, i: nat, j: nat, a: Id, b: Id)
    requires i < j <= |ids|
  {
    Covered(ids, i, a, b) || (a == ids[i] && b in ids[i + 1..j]) || (b == ids[i] && a in ids[i + 1..j])
  }

  method AddGroup(ix: Index, ids: seq<Id>, reason: Reason) returns (ix': Index)
    ensures Grown(ix, ix', reason, (a: Id, b: Id) => a in ids && b in ids)
  {
    ix' := ix;
    for i := 0 to |ids|
      invariant Grown(ix, ix', reason, (a: Id, b: Id) => Covered(ids, i, a, b))
    {
      for j := i + 1 to |ids|
        invariant Grown(ix, ix', reason, (a: Id, b: Id) => CoveredTo(ids, i, j, a, b))
      {
        assert ids[i + 1..j + 1] == ids[i + 1..j] + [ids[j]];
        ix' := AddCandidate(AddCandidate(ix', ids[i], ids[j], reason), ids[j], ids[i], reason);
      }
      RowCovered(ids, i);
    }
  }

  lemma RowCovered(ids: seq<Id>, i: nat)
    requires i < |ids|
    ensures forall a, b | a != b :: CoveredTo(ids, i, |ids|, a, b) <==> Covered(ids, i + 1, a, b)
  {
    assert ids[..i + 1] == ids[..i] + [ids[i]];
    assert ids == ids[..i] + [ids[i]] + ids[i + 1..];
  }

  // ---- grouping contacts by phone or email ----

  ghost function Members(cs: seq<ContactRow>, key: ContactRow -> Option<string>, k: string): (ids: set<Id>) {
    set c | c in cs && key(c) == Some(k) :: c.id
  }

  ghost predicate Grouped(cs: seq<ContactRow>, key: ContactRow -> Option<string>, groups: map<string, seq<Id>>) {
    forall k: string :: Members(cs, key, k) == if k in groups then Elems(groups[k]) else {}
  }

  method GroupContacts(cs: seq<ContactRow>, key: ContactRow -> Option<string>) returns (groups: map<string, seq<Id>>)
    ensures Grouped(cs, key, groups)
  {
    groups := map[];
    for n := 0 to |cs|
      invariant Grouped(cs[..n], key, groups)
    {
      ghost var before := groups;
      var k := key(cs[n]);
      if k.Some? {
        groups := groups[k.value := (if k.value in groups then groups[k.value] else []) + [cs[n].id]];
      }
      forall x: string ensures Members(cs[..n + 1], key, x) == if x in groups then Elems(groups[x]) else {} {
        assert Members(cs[..n], key, x) == if x in before then Elems(before[x]) else {};
        OneMoreMember(cs, key, n, x);
      }
    }
    assert cs[..|cs|] == cs;
  }

  lemma OneMoreMember(cs: seq<ContactRow>, key: ContactRow -> Option<string>, n: nat, k: string)
    requires n < |cs|
    ensures Members(cs[..n + 1], key, k) == Members(cs[..n], key, k) + if key(cs[n]) == Some(k) then {cs[n].id} else {}
  {
    assert cs[..n + 1] == cs[..n] + [cs[n]];
  }

  method AddGroups(ix: Index, groups: map<string, seq<Id>>, reason: Reason) returns (ix': Index)
    ensures Grown(ix, ix', reason, (a: Id, b: Id) => SharedIn(groups, a, b))
  {
    ix' := ix;
    var todo := groups.Keys;
    while todo != {}
      invariant todo <= groups.Keys
      invariant Grown(ix, ix', reason,
                      (a: Id, b: Id) => exists k :: k in groups && k !in todo && a in groups[k] && b in groups[k])
      decreases |todo|
    {
      var k :| k in todo;
      ix' := AddGroup(ix', groups[k], reason);
      todo := todo - {k};
    }
  }

  // ---- grouping identities by channel and comparable value ----

  datatype Group = Group(channel: string, ids: seq<Id>)

  ghost function Owners(n: Normal, rows: seq<IdentityRow>, k: string): (ids: set<Id>) {
    set r | r in rows && IdentityKey(n, r) == Some(k) :: r.owner
  }

  ghost predicate IdentitiesGrouped(n: Normal, rows: seq<IdentityRow>, groups: map<string, Group>) {
    forall k: string ::
      && Owners(n, rows, k) == (if k in groups then Elems(groups[k].ids) else {})
      && (k in groups ==> groups[k].ids != [] && groups[k].channel == FirstChannel(n, rows, k))
  }

  lemma {:induction false} FirstChannelAppend(n: Normal, rows: seq<IdentityRow>, r: IdentityRow, k: string)
    ensures FirstChannel(n, rows + [r], k)
            == if Owners(n, rows, k) != {} then FirstChannel(n, rows, k)
               else if IdentityKey(n, r) == Some(k) then r.channel else ""
    decreases |rows|
  {
    if rows == [] {
      assert rows + [r] == [r];
    } else {
      assert (rows + [r])[1..] == rows[1..] + [r];
      FirstChannelAppend(n, rows[1..], r, k);
      assert rows == [rows[0]] + rows[1..];
      if IdentityKey(n, rows[0]) == Some(k) {
        assert rows[0].owner in Owners(n, rows, k);
      } else {
        assert Owners(n, rows, k) == Owners(n, rows[1..], k);
      }
    }
  }

  lemma OneMoreOwner(n: Normal, rows: seq<IdentityRow>, r: IdentityRow, k: string)
    ensures Owners(n, rows + [r], k) == Owners(n, rows, k) + if IdentityKey(n, r) == Some(k) then {r.owner} else {}
  {
  }

  method GroupIdentities(n: Normal, rows: seq<IdentityRow>) returns (groups: map<string, Group>)
    ensures IdentitiesGrouped(n, rows, groups)
  {
    groups := map[];
    for i := 0 to |rows|
      invariant IdentitiesGrouped(n, rows[..i], groups)
    {
      ghost var before := groups;
      var key := IdentityKey(n, rows[i]);
      if key.Some? {
        var group := if key.value in groups then groups[key.value] else Group(rows[i].channel, []);
        groups := groups[key.value := group.(ids := group.ids + [rows[i].owner])];
      }
      assert rows[..i + 1] == rows[..i] + [rows[i]];
      forall k: string
        ensures Owners(n, rows[..i + 1], k) == (if k in groups then Elems(groups[k].ids) else {})
        ensures k in groups ==> groups[k].ids != [] && groups[k].channel == FirstChannel(n, rows[..i + 1], k)
      {
        assert Owners(n, rows[..i], k) == (if k in before then Elems(before[k].ids) else {});
        assert k in before ==> before[k].ids[0] in Elems(before[k].ids);
        OneMoreOwner(n, rows[..i], rows[i], k);
        FirstChannelAppend(n, rows[..i], rows[i], k);
      }
    }
    assert rows[..|rows|] == rows;
  }

  /** `[...new Set(ids)]`. */
  method Distinct(ids: seq<Id>) returns (r: seq<Id>)
    ensures NoDuplicates(r) && Elems(r) == Elems(ids)
  {
    r := [];
    for i := 0 to |ids|
      invariant NoDuplicates(r) && Elems(r) == Elems(ids[..i])
    {
      assert ids[..i + 1] == ids[..i] + [ids[i]];
      assert Elems(ids[..i + 1]) == Elems(ids[..i]) + {ids[i]};
      assert Elems(r + [ids[i]]) == Elems(r) + {ids[i]};
      assert ids[i] in r <==> ids[i] in Elems(r);
      if ids[i] !in r { r := r + [ids[i]]; }
    }
    assert ids[..|ids|] == ids;
  }

  ghost predicate InGroup(groups: map<string, Group>, k: string, a: Id, b: Id, r: Reason) {
    k in groups && r == SameIdentity(groups[k].channel) && a in groups[k].ids && b in groups[k].ids
  }

  ghost predicate GrownByIdentity(ix: Index, ix': Index, groups: map<string, Group>) {
    && (forall a, b, r ::
          Has(ix', a, b, r) <==> Has(ix, a, b, r) || (a != b && exists k :: InGroup(groups, k, a, b, r)))
    && (NoEmptyReasons(ix) ==> NoEmptyReasons(ix'))
  }

  method AddIdentityGroups(ix: Index, groups: map<string, Group>) returns (ix': Index)
    ensures GrownByIdentity(ix, ix', groups)
  {
    ix' := ix;
    var todo := groups.Keys;
    while todo != {}
      invariant todo <= groups.Keys
      invariant forall a, b, r :: Has(ix', a, b, r) <==>
                  Has(ix, a, b, r) || (a != b && exists k :: InGroup(groups, k, a, b, r) && k !in todo)
      invariant NoEmptyReasons(ix) ==> NoEmptyReasons(ix')
      decreases |todo|
    {
      var k :| k in todo;
      var ids := Distinct(groups[k].ids);
      assert forall x: Id :: x in ids <==> x in groups[k].ids by {
        assert forall x: Id :: (x in ids <==> x in Elems(ids)) && (x in groups[k].ids <==> x in Elems(groups[k].ids));
      }
      ghost var before := ix';
      ix' := AddGroup(ix', ids, SameIdentity(groups[k].channel));
      OneMoreGroup(ix, before, ix', groups, todo, k, ids);
      todo := todo - {k};
    }
  }

  lemma OneMoreGroup(ix: Index, before: Index, after: Index, groups: map<string, Group>, todo: set<string>,
      k: string, ids: seq<Id>)
    requires k in todo && todo <= groups.Keys && forall x: Id :: x in ids <==> x in groups[k].ids
    requires forall a, b, r :: Has(before, a, b, r) <==>
               Has(ix, a, b, r) || (a != b && exists g :: InGroup(groups, g, a, b, r) && g !in todo)
    requires Grown(before, after, SameIdentity(groups[k].channel), (a: Id, b: Id) => a in ids && b in ids)
    ensures forall a, b, r :: Has(after, a, b, r) <==>
              Has(ix, a, b, r) || (a != b && exists g :: InGroup(groups, g, a, b, r) && g !in todo - {k})
  {
    forall a, b, r
      ensures Has(after, a, b, r)
              <==> Has(ix, a, b, r) || (a != b && exists g :: InGroup(groups, g, a, b, r) && g !in todo - {k})
    {
      assert InGroup(groups, k, a, b, r) <==> r == SameIdentity(groups[k].channel) && a in ids && b in ids;
    }
  }

  // ---- the whole index ----

  lemma ContactGroupsAreShared(cs: seq<ContactRow>, key: ContactRow -> Option<string>, groups: map<string, seq<Id>>,
      a: Id, b: Id)
    requires Grouped(cs, key, groups)
    ensures SharedIn(groups, a, b) <==> ShareContactKey(cs, key, a, b)
  {
    if SharedIn(groups, a, b) {
      var k :| k in groups && a in groups[k] && b in groups[k];
      assert a in Elems(groups[k]) && b in Elems(groups[k]);
      assert a in Members(cs, key, k) && b in Members(cs, key, k);
    }
    if ShareContactKey(cs, key, a, b) {
      var x, y :| x in cs && y in cs && x.id == a && y.id == b && key(x).Some? && key(x) == key(y);
      var k := key(x).value;
      assert x.id in Members(cs, key, k) && y.id in Members(cs, key, k);
      assert k in groups && a in Elems(groups[k]) && b in Elems(groups[k]);
    }
  }

  lemma IdentityGroupsAreShared(n: Normal, rows: seq<IdentityRow>, groups: map<string, Group>, a: Id, b: Id,
      channel: string)
    requires IdentitiesGrouped(n, rows, groups)
    ensures (exists k :: InGroup(groups, k, a, b, SameIdentity(channel))) <==> ShareIdentityKey(n, rows, a, b, channel)
  {
    if exists k :: InGroup(groups, k, a, b, SameIdentity(channel)) {
      var k :| InGroup(groups, k, a, b, SameIdentity(channel));
      assert a in Elems(groups[k].ids) && b in Elems(groups[k].ids);
      assert a in Owners(n, rows, k) && b in Owners(n, rows, k);
    }
    if ShareIdentityKey(n, rows, a, b, channel) {
      var x, y :| x in rows && y in rows && x.owner == a && y.owner == b
                  && IdentityKey(n, x).Some? && IdentityKey(n, x) == IdentityKey(n, y)
                  && channel == FirstChannel(n, rows, IdentityKey(n, x).value);
      var k := IdentityKey(n, x).value;
      assert x.owner in Owners(n, rows, k) && y.owner in Owners(n, rows, k);
      assert k in groups && a in Elems(groups[k].ids) && b in Elems(groups[k].ids);
      assert InGroup(groups, k, a, b, SameIdentity(channel));
    }
  }

  predicate IsContact(cs: seq<ContactRow>, id: Id) {
    exists c | c in cs :: c.id == id
  }

  ghost predicate ListsExactlyRelated(n: Normal, cs: seq<ContactRow>, rows: seq<IdentityRow>, result: Index) {
    && (forall a, b :: a in result && b in result[a] <==> IsContact(cs, b) && exists r :: Related(n, cs, rows, a, b, r))
    && (forall a, b, r | a in result && b in result[a] :: r in result[a][b] <==> Related(n, cs, rows, a, b, r))
  }

  /** Candidate `b` is listed for `a` exactly when it is a live contact the naive relation pairs with `a`, and
      with exactly the related reasons. */
  method BuildDuplicateCandidates(n: Normal, cs: seq<ContactRow>, rows: seq<IdentityRow>) returns (result: Index)
    ensures ListsExactlyRelated(n, cs, rows, result)
  {
    hide Grown, GrownByIdentity, Grouped, IdentitiesGrouped, OnlyContacts, NoEmptyReasons, ShareContactKey,
      ShareIdentityKey;
    var phones := GroupContacts(cs, c => PhoneKey(n, c));
    var emails := GroupContacts(cs, c => EmailKey(n, c));
    var ix: Index := map[];
    var ix1 := AddGroups(ix, phones, SamePhone);
    var ix2 := AddGroups(ix1, emails, SameEmail);
    var groups := GroupIdentities(n, rows);
    var ix3 := AddIdentityGroups(ix2, groups);
    IndexIsRelation(n, cs, rows, phones, emails, groups, ix1, ix2, ix3);
    result := OnlyContacts(cs, ix3);
    IndexLists(n, cs, rows, ix3, result);
  }

  ghost predicate SharedIn(groups: map<string, seq<Id>>, a: Id, b: Id) {
    exists k :: k in groups && a in groups[k] && b in groups[k]
  }

  lemma IndexIsRelation(n: Normal, cs: seq<ContactRow>, rows: seq<IdentityRow>, phones: map<string, seq<Id>>,
                        emails: map<string, seq<Id>>, groups: map<string, Group>, ix1: Index, ix2: Index, ix3: Index)
    requires Grouped(cs, c => PhoneKey(n, c), phones) && Grouped(cs, c => EmailKey(n, c), emails)
    requires IdentitiesGrouped(n, rows, groups)
    requires Grown(map[], ix1, SamePhone, (a: Id, b: Id) => SharedIn(phones, a, b))
    requires Grown(ix1, ix2, SameEmail, (a: Id, b: Id) => SharedIn(emails, a, b))
    requires GrownByIdentity(ix2, ix3, groups)
    ensures NoEmptyReasons(ix3) && forall a, b, r :: Has(ix3, a, b, r) <==> Related(n, cs, rows, a, b, r)
  {
    hide Grouped, IdentitiesGrouped, ShareContactKey, ShareIdentityKey, SharedIn;
    forall a, b, r ensures Has(ix3, a, b, r) <==> Related(n, cs, rows, a, b, r) {
      ContactGroupsAreShared(cs, c => PhoneKey(n, c), phones, a, b);
      ContactGroupsAreShared(cs, c => EmailKey(n, c), emails, a, b);
      if r.SameIdentity? { IdentityGroupsAreShared(n, rows, groups, a, b, r.channel); }
      assert (exists k :: InGroup(groups, k, a, b, r)) ==> r.SameIdentity?;
    }
  }

  lemma IndexLists(n: Normal, cs: seq<ContactRow>, rows: seq<IdentityRow>, ix: Index, result: Index)
    requires NoEmptyReasons(ix) && forall a, b, r :: Has(ix, a, b, r) <==> Related(n, cs, rows, a, b, r)
    requires result == OnlyContacts(cs, ix)
    ensures ListsExactlyRelated(n, cs, rows, result)
  {
    forall a, b
      ensures a in result && b in result[a] <==> IsContact(cs, b) && exists r :: Related(n, cs, rows, a, b, r)
      ensures a in result && b in result[a] ==> forall r :: r in result[a][b] <==> Related(n, cs, rows, a, b, r)
    {
      hide Related, NoEmptyReasons, IsContact;
      ListedReasons(cs, ix, a, b);
    }
  }

  function OnlyContacts(cs: seq<ContactRow>, ix: Index): (r: Index) {
    map a | a in ix :: map b | b in ix[a] && IsContact(cs, b) :: ix[a][b]
  }

  lemma ListedReasons(cs: seq<ContactRow>, ix: Index, a: Id, b: Id)
    requires NoEmptyReasons(ix)
    ensures var r := OnlyContacts(cs, ix);
      && ((a in r && b in r[a]) <==> IsContact(cs, b) && exists x :: Has(ix, a, b, x))
      && (a in r && b in r[a] ==> forall x :: x in r[a][b] <==> Has(ix, a, b, x))
  {
    if a in ix && b in ix[a] {
      var x :| x in ix[a][b];
      assert Has(ix, a, b, x);
    }
  }

  /** The phone reason pairs contacts whose phones are given and normalize alike, the email reason those whose emails
      are given and differ in case at most. */
  lemma ContactReasonMeaning(n: Normal, cs: seq<ContactRow>, rows: seq<IdentityRow>, a: Id, b: Id)
    ensures Related(n, cs, rows, a, b, SamePhone)
            <==> a != b && exists x, y :: x in cs && y in cs && x.id == a && y.id == b && SamePhones(n, x, y)
    ensures Related(n, cs, rows, a, b, SameEmail)
            <==> a != b && exists x, y :: x in cs && y in cs && x.id == a && y.id == b && SameEmails(n, x, y)
  {
  }

  predicate SamePhones(n: Normal, x: ContactRow, y: ContactRow) {
    && x.phone.Some? && y.phone.Some? && x.phone.value != "" && y.phone.value != ""
    && n.phone(x.phone.value) == n.phone(y.phone.value)
  }

  predicate SameEmails(n: Normal, x: ContactRow, y: ContactRow) {
    && x.email.Some? && y.email.Some? && x.email.value != "" && y.email.value != ""
    && n.lower(x.email.value) == n.lower(y.email.value)
  }

  /** Values on one channel compare alike: emails up to case, phones and numbers as phones, and nothing else; an empty
      value compares with none. */
  predicate SameValue(n: Normal, x: IdentityRow, y: IdentityRow) {
    if x.channel == "email" then n.lower(x.user) == n.lower(y.user) != ""
    else (x.channel == "phone" || (AllDigits(x.user) && AllDigits(y.user))) && n.phone(x.user) == n.phone(y.user) != ""
  }

  lemma ComparableMeans(n: Normal, x: IdentityRow, y: IdentityRow)
    requires x.channel == y.channel
    ensures Comparable(n, x).Some? && Comparable(n, x) == Comparable(n, y) <==> SameValue(n, x, y)
  {
  }

  /** With channel names free of the separator, an identity reason means: both own an identity on that very
      channel with the same value. */
  lemma IdentityReasonMeaning(n: Normal, rows: seq<IdentityRow>, a: Id, b: Id, channel: string)
    requires forall r | r in rows :: SEPARATOR !in r.channel
    ensures ShareIdentityKey(n, rows, a, b, channel) <==>
            exists x, y :: x in rows && y in rows && x.owner == a && y.owner == b && x.channel == channel
                           && y.channel == channel && SameValue(n, x, y)
  {
    forall x, y | x in rows && y in rows && x.channel == y.channel
      ensures IdentityKey(n, x).Some? && IdentityKey(n, x) == IdentityKey(n, y) <==> SameValue(n, x, y)
    {
      ComparableMeans(n, x, y);
      if IdentityKey(n, x).Some? && IdentityKey(n, x) == IdentityKey(n, y) {
        SplitKey(x.channel, Comparable(n, x).value, y.channel, Comparable(n, y).value);
      }
    }
    forall x, y | x in rows && y in rows && IdentityKey(n, x).Some? && IdentityKey(n, x) == IdentityKey(n, y)
      ensures x.channel == y.channel && Comparable(n, x) == Comparable(n, y)
      ensures FirstChannel(n, rows, IdentityKey(n, x).value) == x.channel
    {
      SplitKey(x.channel, Comparable(n, x).value, y.channel, Comparable(n, y).value);
      FirstChannelOfKey(n, rows, x);
    }
  }

  lemma {:induction false} SplitKey(c: string, v: string, c': string, v': string)
    requires SEPARATOR !in c && SEPARATOR !in c' && c + [SEPARATOR] + v == c' + [SEPARATOR] + v'
    ensures c == c' && v == v'
  {
    var k := c + [SEPARATOR] + v;
    assert k[|c|] == SEPARATOR && k[|c'|] == SEPARATOR;
    assert c == k[..|c|] && c' == k[..|c'|];
    assert v == k[|c| + 1..] && v' == k[|c'| + 1..];
  }

  lemma {:induction false} FirstChannelOfKey(n: Normal, rows: seq<IdentityRow>, x: IdentityRow)
    requires x in rows && IdentityKey(n, x).Some? && forall r | r in rows :: SEPARATOR !in r.channel
    ensures FirstChannel(n, rows, IdentityKey(n, x).value) == x.channel
    decreases |rows|
  {
    if IdentityKey(n, rows[0]) == IdentityKey(n, x) {
      assert rows[0] in rows;
      SplitKey(rows[0].channel, Comparable(n, rows[0]).value, x.channel, Comparable(n, x).value);
    } else {
      assert rows == [rows[0]] + rows[1..];
      FirstChannelOfKey(n, rows[1..], x);
    }
  }
}
