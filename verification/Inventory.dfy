/** The credential inventory: normalising a batch and merging items about the same credential. */
module Inventory {
  import opened Text
  import opened Ordering
  import opened Deduplication

  datatype Permission = Permission(resourceType: string, resourceName: string, permission: string, source: string)

  datatype Usage = Usage(usedByType: string, usedByName: string, context: string)

  datatype Item = Item(
    name: string, provider: string, ref: string, credentialType: string, status: string,
    permissions: seq<Permission>, usages: seq<Usage>)

  const MAX_BATCH: nat := 500

  // ---- the parts of an item ----

  predicate HasControl(s: string) {
    '\r' in s || '\n' in s || '\t' in s
  }

  function CleanPermission(p: Permission): Cleaned<Permission> {
    var source := if Trim(p.source) == "" then "connector" else Trim(p.source);
    var q := Permission(Trim(p.resourceType), Trim(p.resourceName), Trim(p.permission), source);
    if q.resourceType == "" || q.resourceName == "" || q.permission == "" then Bad
    else if HasControl(q.resourceType) || HasControl(q.resourceName) || HasControl(q.permission) || HasControl(q.source)
    then Bad
    else Fine(q)
  }

  function CleanUsage(u: Usage): Cleaned<Usage> {
    var v := Usage(Trim(u.usedByType), Trim(u.usedByName), Trim(u.context));
    if v.usedByType == "" || v.usedByName == "" || v.context == "" then Bad
    else if HasControl(v.usedByType) || HasControl(v.usedByName) || HasControl(v.context) then Bad
    else Fine(v)
  }

  function Join3(a: string, b: string, c: string): string {
    a + ['\0'] + b + ['\0'] + c
  }

  function PermissionKey(p: Permission): string {
    Join3(p.resourceType, p.resourceName, p.permission)
  }

  function UsageKey(u: Usage): string {
    Join3(u.usedByType, u.usedByName, u.context)
  }

  /** A joined key stands for one triple exactly when no field holds a NUL. */
  lemma KeyIsTheTripleExactly(a: string, b: string, c: string)
    ensures (forall x, y, z :: Join3(x, y, z) == Join3(a, b, c) ==> x == a && y == b && z == c)
            <==> '\0' !in a && '\0' !in b && '\0' !in c
  {
    if '\0' !in a && '\0' !in b && '\0' !in c {
      forall x, y, z | Join3(x, y, z) == Join3(a, b, c) ensures x == a && y == b && z == c {
        NulsOfKey(a, b, c);
        NulsOfKey(x, y, z);
        assert Join3(x, y, z) == x + ['\0'] + (y + ['\0'] + z);
        assert Join3(a, b, c) == a + ['\0'] + (b + ['\0'] + c);
        FirstFieldAgrees(x, y + ['\0'] + z, a, b + ['\0'] + c);
        FirstFieldAgrees(y, z, b, c);
      }
    } else {
      KeyIsAmbiguous(a, b, c);
    }
  }

  lemma KeyIsAmbiguous(a: string, b: string, c: string)
    requires '\0' in a || '\0' in b || '\0' in c
    ensures exists x, y, z :: Join3(x, y, z) == Join3(a, b, c) && (x != a || y != b)
  {
    if '\0' in a {
      var i :| 0 <= i < |a| && a[i] == '\0';
      assert a == a[..i] + ['\0'] + a[i + 1..];
      assert Join3(a[..i], a[i + 1..] + ['\0'] + b, c) == Join3(a, b, c);
      assert a[..i] != a;
    } else if '\0' in b {
      var i :| 0 <= i < |b| && b[i] == '\0';
      assert b == b[..i] + ['\0'] + b[i + 1..];
      assert Join3(a + ['\0'] + b[..i], b[i + 1..], c) == Join3(a, b, c);
      assert a + ['\0'] + b[..i] != a;
    } else {
      var i :| 0 <= i < |c| && c[i] == '\0';
      assert c == c[..i] + ['\0'] + c[i + 1..];
      assert Join3(a, b + ['\0'] + c[..i], c[i + 1..]) == Join3(a, b, c);
      assert b + ['\0'] + c[..i] != b;
    }
  }

  /** A key has two NULs more than its fields. */
  lemma NulsOfKey(a: string, b: string, c: string)
    ensures Count(Join3(a, b, c), '\0') == 2 <==> '\0' !in a && '\0' !in b && '\0' !in c
  {
    CountAppend(a + ['\0'] + b + ['\0'], c, '\0');
    CountAppend(a + ['\0'] + b, ['\0'], '\0');
    CountAppend(a + ['\0'], b, '\0');
    CountAppend(a, ['\0'], '\0');
    CountOne('\0', '\0');
    CountZero(a, '\0');
    CountZero(b, '\0');
    CountZero(c, '\0');
  }

  lemma FirstFieldAgrees(x: string, rest: string, a: string, tail: string)
    requires '\0' !in x && '\0' !in a && x + ['\0'] + rest == a + ['\0'] + tail
    ensures x == a && rest == tail
  {
    var s, t := x + ['\0'] + rest, a + ['\0'] + tail;
    assert s[|x|] == '\0' && t[|a|] == '\0';
    assert x == s[..|x|] && a == t[..|a|];
    assert rest == s[|x| + 1..] && tail == t[|a| + 1..];
  }

  lemma PermissionSettles()
    ensures Settles(CleanPermission)
  {
    forall p: Permission | CleanPermission(p).Fine?
      ensures CleanPermission(CleanPermission(p).value) == CleanPermission(p)
    {
      TrimIdempotent(p.resourceType);
      TrimIdempotent(p.resourceName);
      TrimIdempotent(p.permission);
      TrimIdempotent(p.source);
      TrimKeeps("connector");
    }
  }

  lemma UsageSettles()
    ensures Settles(CleanUsage)
  {
    forall u: Usage | CleanUsage(u).Fine? ensures CleanUsage(CleanUsage(u).value) == CleanUsage(u) {
      TrimIdempotent(u.usedByType);
      TrimIdempotent(u.usedByName);
      TrimIdempotent(u.context);
    }
  }

  // ---- one item ----

  function LowerChar(c: char): char {
    if 'A' <= c <= 'Z' then c - 'A' + 'a' else c
  }

  function ToLower(s: string): (r: string)
    ensures |r| == |s| && forall i | 0 <= i < |s| :: r[i] == LowerChar(s[i])
  {
    seq(|s|, i requires 0 <= i < |s| => LowerChar(s[i]))
  }

  /** Upper-case ASCII letters move by 32, everything else stays. */
  lemma ToLowerExactly(s: string, i: nat)
    requires i < |s|
    ensures 'A' <= s[i] <= 'Z' ==> ToLower(s)[i] as int == s[i] as int + 32
    ensures !('A' <= s[i] <= 'Z') ==> ToLower(s)[i] == s[i]
  {
  }

  predicate AllowedProvider(p: string) {
    p == "github" || p == "doppler" || p == "s3" || p == "gcs" || p == "slack" || p == "resend" || p == "ssh"
  }

  predicate KnownStatus(s: string) {
    s == "active" || s == "rotating" || s == "revoked" || s == "unknown"
  }

  /** The identity fields of an item, trimmed, with the status defaulted. */
  function Trimmed(item: Item): Item {
    item.(name := Trim(item.name), provider := ToLower(Trim(item.provider)), ref := Trim(item.ref),
          credentialType := Trim(item.credentialType),
          status := if Trim(item.status) == "" then "active" else Trim(item.status))
  }

  predicate IdentityAccepted(secret: string -> bool, t: Item) {
    KnownStatus(t.status)
    && t.name != "" && t.provider != "" && t.ref != "" && t.credentialType != ""
    && !HasControl(t.name) && !HasControl(t.ref) && !HasControl(t.credentialType)
    && !secret(t.ref) && AllowedProvider(t.provider)
  }

  /** normalizeCredentialInventoryItem; `secret` is looksLikeSecretMaterial. */
  function NormalizeItem(secret: string -> bool, item: Item): Cleaned<Item> {
    var t := Trimmed(item);
    var permissions := Normalize(CleanPermission, PermissionKey, item.permissions);
    var usages := Normalize(CleanUsage, UsageKey, item.usages);
    if !IdentityAccepted(secret, t) || permissions.Bad? || usages.Bad? then Bad
    else Fine(t.(permissions := permissions.value, usages := usages.value))
  }

  /** A field after trimming: something is left, and no line break or tab. */
  predicate Stated(s: string) {
    Trim(s) != "" && '\r' !in Trim(s) && '\n' !in Trim(s) && '\t' !in Trim(s)
  }

  predicate OneOf(s: string, words: seq<string>) {
    exists i :: 0 <= i < |words| && s == words[i]
  }

  lemma ProvidersExactly(p: string)
    ensures AllowedProvider(p) <==> OneOf(p, ["github", "doppler", "s3", "gcs", "slack", "resend", "ssh"])
  {
    var words := ["github", "doppler", "s3", "gcs", "slack", "resend", "ssh"];
    assert words[0] == "github" && words[1] == "doppler" && words[2] == "s3" && words[3] == "gcs";
    assert words[4] == "slack" && words[5] == "resend" && words[6] == "ssh";
  }

  lemma StatusesExactly(s: string)
    ensures KnownStatus(s) <==> OneOf(s, ["active", "rotating", "revoked", "unknown"])
  {
    var words := ["active", "rotating", "revoked", "unknown"];
    assert words[0] == "active" && words[1] == "rotating" && words[2] == "revoked" && words[3] == "unknown";
  }

  lemma IdentityExactly(secret: string -> bool, item: Item)
    ensures IdentityAccepted(secret, Trimmed(item)) <==>
              && Stated(item.name) && Stated(item.ref) && Stated(item.credentialType) && !secret(Trim(item.ref))
              && AllowedProvider(ToLower(Trim(item.provider)))
              && (Trim(item.status) == "" || KnownStatus(Trim(item.status)))
  {
  }

  /** Which items are accepted, by their columns, and what becomes of each. */
  lemma NormalizeItemExactly(secret: string -> bool, item: Item)
    ensures NormalizeItem(secret, item).Fine? <==>
              && Stated(item.name) && Stated(item.ref) && Stated(item.credentialType) && !secret(Trim(item.ref))
              && OneOf(ToLower(Trim(item.provider)), ["github", "doppler", "s3", "gcs", "slack", "resend", "ssh"])
              && (Trim(item.status) == "" || OneOf(Trim(item.status), ["active", "rotating", "revoked", "unknown"]))
              && (forall i | 0 <= i < |item.permissions| :: CleanPermission(item.permissions[i]).Fine?)
              && (forall i | 0 <= i < |item.usages| :: CleanUsage(item.usages[i]).Fine?)
    ensures NormalizeItem(secret, item).Fine? ==>
              var r := NormalizeItem(secret, item).value;
              && r.name == Trim(item.name) && r.provider == ToLower(Trim(item.provider))
              && r.ref == Trim(item.ref) && r.credentialType == Trim(item.credentialType)
              && r.status == (if Trim(item.status) == "" then "active" else Trim(item.status))
  {
    NormalizeExactly(CleanPermission, PermissionKey, item.permissions);
    NormalizeExactly(CleanUsage, UsageKey, item.usages);
    IdentityExactly(secret, item);
    ProvidersExactly(ToLower(Trim(item.provider)));
    StatusesExactly(Trim(item.status));
  }

  /** Which permissions and usages are accepted, and what they become; a blank source is the connector's. */
  lemma CleanExactly(p: Permission, u: Usage)
    ensures CleanPermission(p).Fine? <==>
              && Stated(p.resourceType) && Stated(p.resourceName) && Stated(p.permission)
              && '\r' !in Trim(p.source) && '\n' !in Trim(p.source) && '\t' !in Trim(p.source)
    ensures CleanPermission(p).Fine? ==>
              CleanPermission(p).value
              == Permission(Trim(p.resourceType), Trim(p.resourceName), Trim(p.permission),
                            if Trim(p.source) == "" then "connector" else Trim(p.source))
    ensures CleanUsage(u).Fine? <==> Stated(u.usedByType) && Stated(u.usedByName) && Stated(u.context)
    ensures CleanUsage(u).Fine? ==>
              CleanUsage(u).value == Usage(Trim(u.usedByType), Trim(u.usedByName), Trim(u.context))
  {
  }

  /** What normalising leaves alone. */
  ghost predicate NormalItem(secret: string -> bool, item: Item) {
    Trimmed(item) == item && IdentityAccepted(secret, item)
    && Normal(CleanPermission, PermissionKey, item.permissions)
    && Normal(CleanUsage, UsageKey, item.usages)
  }

  lemma NormalizeNormal<T(!new)>(clean: T -> Cleaned<T>, key: T -> string, xs: seq<T>)
    requires Normal(clean, key, xs)
    ensures Normalize(clean, key, xs) == Fine(xs)
  {
    assert Normal(clean, key, []);
    NormalizeJoin(clean, key, xs, []);
    assert xs + [] == xs;
    AlreadyFirst(key, xs);
  }

  /** The items normalising returns are exactly the ones it leaves alone. */
  lemma NormalizedItemIsNormal(secret: string -> bool, item: Item)
    ensures NormalizeItem(secret, item).Fine? ==> NormalItem(secret, NormalizeItem(secret, item).value)
    ensures NormalItem(secret, item) <==> NormalizeItem(secret, item) == Fine(item)
  {
    if NormalizeItem(secret, item).Fine? {
      PermissionSettles();
      UsageSettles();
      NormalizedIsNormal(CleanPermission, PermissionKey, item.permissions);
      NormalizedIsNormal(CleanUsage, UsageKey, item.usages);
      var r := NormalizeItem(secret, item).value;
      TrimmedTwice(item, r.permissions, r.usages);
    }
    if NormalItem(secret, item) {
      NormalizeNormal(CleanPermission, PermissionKey, item.permissions);
      NormalizeNormal(CleanUsage, UsageKey, item.usages);
    }
  }

  lemma TrimmedTwice(item: Item, permissions: seq<Permission>, usages: seq<Usage>)
    requires AllowedProvider(Trimmed(item).provider)
    ensures var t := Trimmed(item).(permissions := permissions, usages := usages); Trimmed(t) == t
  {
    TrimIdempotent(item.name);
    TrimIdempotent(item.ref);
    TrimIdempotent(item.credentialType);
    TrimIdempotent(item.status);
    ActiveIsTrimmed();
    ProviderIsTrimmed(Trimmed(item).provider);
  }

  lemma ActiveIsTrimmed()
    ensures Trim("active") == "active"
  {
    TrimKeeps("active");
  }

  lemma ProviderIsTrimmed(p: string)
    requires AllowedProvider(p)
    ensures ToLower(Trim(p)) == p
  {
    assert p != "" && !IsSpace(p[0]) && !IsSpace(p[|p| - 1]);
    TrimKeeps(p);
    assert ToLower(p) == p;
  }

  // ---- merging ----

  function ItemKey(item: Item): string {
    item.provider + ['\0'] + item.ref
  }

  /** No allowed provider holds a NUL, so the key of a normal item is its provider and reference. */
  lemma ItemKeyIsProviderAndRef(a: Item, b: Item)
    requires AllowedProvider(a.provider) && AllowedProvider(b.provider)
    ensures ItemKey(a) == ItemKey(b) <==> a.provider == b.provider && a.ref == b.ref
  {
    if ItemKey(a) == ItemKey(b) {
      FirstFieldAgrees(a.provider, a.ref, b.provider, b.ref);
    }
  }

  function Priority(status: string): nat {
    if status == "revoked" then 4
    else if status == "rotating" then 3
    else if status == "unknown" then 2
    else if status == "active" then 1
    else 0
  }

  function MergedStatus(left: string, right: string): string {
    if Priority(right) > Priority(left) then right else left
  }

  /** What the loop makes of an item already listed and another about the same credential; errors are discarded. */
  function MergeTwo(e: Item, item: Item): Item {
    var permissions := Normalize(CleanPermission, PermissionKey, e.permissions + item.permissions);
    var usages := Normalize(CleanUsage, UsageKey, e.usages + item.usages);
    e.(permissions := if permissions.Fine? then permissions.value else [],
       usages := if usages.Fine? then usages.value else [],
       status := MergedStatus(e.status, item.status))
  }

  // ---- what a merge should be: by credential, everything that any item says about it ----

  function About(items: seq<Item>, k: string): (r: seq<Item>)
    ensures forall x :: x in r <==> x in items && ItemKey(x) == k
  {
    if items == [] then []
    else About(items[..|items| - 1], k) + (if ItemKey(items[|items| - 1]) == k then [items[|items| - 1]] else [])
  }

  function AllPermissions(items: seq<Item>): seq<Permission> {
    if items == [] then [] else AllPermissions(items[..|items| - 1]) + items[|items| - 1].permissions
  }

  function AllUsages(items: seq<Item>): seq<Usage> {
    if items == [] then [] else AllUsages(items[..|items| - 1]) + items[|items| - 1].usages
  }

  function TopStatus(items: seq<Item>): string {
    if items == [] then "" else MergedStatus(TopStatus(items[..|items| - 1]), items[|items| - 1].status)
  }

  /** One item for a group: the first one's identity, the union of the rest, the highest status. */
  function Combined(group: seq<Item>): Item
    requires group != []
  {
    group[0].(permissions := FirstOfEach(PermissionKey, AllPermissions(group)),
              usages := FirstOfEach(UsageKey, AllUsages(group)),
              status := TopStatus(group))
  }

  /** mergeCredentialInventoryItems by groups, in the order the credentials are first seen. */
  function Merged(items: seq<Item>): (r: seq<Item>)
    ensures |r| == |FirstOfEach(ItemKey, items)|
    ensures forall i | 0 <= i < |r| :: r[i] == CombinedAbout(items, FirstOfEach(ItemKey, items)[i])
  {
    var firsts := FirstOfEach(ItemKey, items);
    seq(|firsts|, i requires 0 <= i < |firsts| => CombinedAbout(items, firsts[i]))
  }

  /** The group of an item of the list is never empty: it holds that item. */
  function CombinedAbout(items: seq<Item>, first: Item): Item {
    var group := About(items, ItemKey(first));
    if group == [] then first else Combined(group)
  }

  ghost predicate AllNormal(secret: string -> bool, items: seq<Item>) {
    forall x | x in items :: NormalItem(secret, x)
  }

  // ---- one group ----

  lemma Snoc<T>(xs: seq<T>, x: T)
    ensures (xs + [x])[..|xs + [x]| - 1] == xs
  {
  }

  lemma SingleGroup(item: Item)
    ensures AllPermissions([item]) == item.permissions && AllUsages([item]) == item.usages
    ensures KnownStatus(item.status) ==> TopStatus([item]) == item.status
  {
    var group := [item];
    assert group[..|group| - 1] == [];
    assert AllPermissions(group) == [] + item.permissions;
    assert AllUsages(group) == [] + item.usages;
    assert TopStatus(group) == MergedStatus("", item.status);
  }

  lemma CombinedOne(secret: string -> bool, item: Item)
    requires NormalItem(secret, item)
    ensures Combined([item]) == item
  {
    SingleGroup(item);
    AlreadyFirst(PermissionKey, item.permissions);
    AlreadyFirst(UsageKey, item.usages);
  }

  /** Two normal items make a normal one, so the errors the merge discards never occur. */
  lemma MergeTwoIsNormal(secret: string -> bool, e: Item, item: Item)
    requires NormalItem(secret, e) && NormalItem(secret, item)
    ensures NormalItem(secret, MergeTwo(e, item)) && ItemKey(MergeTwo(e, item)) == ItemKey(e)
    ensures Normalize(CleanPermission, PermissionKey, e.permissions + item.permissions)
            == Fine(FirstOfEach(PermissionKey, e.permissions + item.permissions))
    ensures Normalize(CleanUsage, UsageKey, e.usages + item.usages)
            == Fine(FirstOfEach(UsageKey, e.usages + item.usages))
  {
    NormalizeJoin(CleanPermission, PermissionKey, e.permissions, item.permissions);
    NormalizeJoin(CleanUsage, UsageKey, e.usages, item.usages);
  }

  lemma CombinedOneMore(secret: string -> bool, group: seq<Item>, item: Item)
    requires group != [] && NormalItem(secret, Combined(group)) && NormalItem(secret, item)
    ensures Combined(group + [item]) == MergeTwo(Combined(group), item)
  {
    Snoc(group, item);
    MergeTwoIsNormal(secret, Combined(group), item);
    FirstOfEachInPieces(PermissionKey, AllPermissions(group), item.permissions);
    FirstOfEachInPieces(UsageKey, AllUsages(group), item.usages);
    assert (group + [item])[0] == group[0];
  }

  lemma {:induction false} CombinedIsNormal(secret: string -> bool, group: seq<Item>)
    requires group != [] && AllNormal(secret, group)
    ensures NormalItem(secret, Combined(group))
    ensures Combined(group).provider == group[0].provider && Combined(group).ref == group[0].ref
    decreases |group|
  {
    var init, last := group[..|group| - 1], group[|group| - 1];
    assert group == init + [last];
    if init == [] {
      assert group == [last];
      CombinedOne(secret, last);
    } else {
      CombinedIsNormal(secret, init);
      CombinedOneMore(secret, init, last);
      MergeTwoIsNormal(secret, Combined(init), last);
    }
  }

  /** The status of a group is one that some item has, and none has a higher one. */
  lemma {:induction false} TopStatusIsHighest(group: seq<Item>)
    requires group != [] && forall x | x in group :: KnownStatus(x.status)
    ensures exists x :: x in group && x.status == TopStatus(group)
    ensures forall x | x in group :: Priority(x.status) <= Priority(TopStatus(group))
    decreases |group|
  {
    var init, last := group[..|group| - 1], group[|group| - 1];
    assert group == init + [last];
    if init != [] {
      TopStatusIsHighest(init);
      var x :| x in init && x.status == TopStatus(init);
      assert x in group;
    }
    assert last in group;
  }

  predicate HasStatus(group: seq<Item>, status: string) {
    exists i :: 0 <= i < |group| && group[i].status == status
  }

  /** Revoked if any is, otherwise rotating if any is, otherwise unknown if any is, otherwise active. */
  predicate StatusByWord(group: seq<Item>, status: string) {
    && (status == "revoked" <==> HasStatus(group, "revoked"))
    && (!HasStatus(group, "revoked") ==> (status == "rotating" <==> HasStatus(group, "rotating")))
    && (!HasStatus(group, "revoked") && !HasStatus(group, "rotating") ==>
          (status == "unknown" <==> HasStatus(group, "unknown")))
    && (!HasStatus(group, "revoked") && !HasStatus(group, "rotating") && !HasStatus(group, "unknown") ==>
          status == "active")
  }

  lemma OneMoreStatus(group: seq<Item>, item: Item, status: string)
    ensures HasStatus(group + [item], status) <==> HasStatus(group, status) || item.status == status
  {
    var all := group + [item];
    assert all[|group|] == item;
    if HasStatus(group, status) {
      var i :| 0 <= i < |group| && group[i].status == status;
      assert all[i] == group[i];
    }
  }

  lemma {:induction false} TopStatusByWord(group: seq<Item>)
    requires group != [] && forall x | x in group :: KnownStatus(x.status)
    ensures StatusByWord(group, TopStatus(group)) && KnownStatus(TopStatus(group))
    decreases |group|
  {
    var init, last := group[..|group| - 1], group[|group| - 1];
    assert group == init + [last] && last in group;
    OneMoreStatus(init, last, "revoked");
    OneMoreStatus(init, last, "rotating");
    OneMoreStatus(init, last, "unknown");
    if init != [] {
      TopStatusByWord(init);
    } else {
      assert TopStatus(init) == "";
    }
  }

  lemma {:induction false} PermissionsOfGroup(group: seq<Item>, p: Permission)
    ensures p in AllPermissions(group) <==> exists x :: x in group && p in x.permissions
    decreases |group|
  {
    if group != [] {
      PermissionsOfGroup(group[..|group| - 1], p);
      assert group == group[..|group| - 1] + [group[|group| - 1]];
    }
  }

  lemma {:induction false} UsagesOfGroup(group: seq<Item>, u: Usage)
    ensures u in AllUsages(group) <==> exists x :: x in group && u in x.usages
    decreases |group|
  {
    if group != [] {
      UsagesOfGroup(group[..|group| - 1], u);
      assert group == group[..|group| - 1] + [group[|group| - 1]];
    }
  }

  // ---- one more item ----

  function IndexOf(items: seq<Item>, k: string): (i: nat)
    ensures i <= |items| && (i < |items| ==> ItemKey(items[i]) == k)
    ensures i == |items| <==> k !in Keys(ItemKey, items)
    ensures forall j | 0 <= j < i :: ItemKey(items[j]) != k
  {
    if items == [] then 0
    else if ItemKey(items[0]) == k then 0
    else
      var i := IndexOf(items[1..], k);
      assert forall j | 1 <= j < |items| :: items[j] == items[1..][j - 1];
      i + 1
  }

  /** One turn of the loop. */
  function Absorb(merged: seq<Item>, item: Item): seq<Item> {
    var i := IndexOf(merged, ItemKey(item));
    if i == |merged| then merged + [item] else merged[i := MergeTwo(merged[i], item)]
  }

  lemma AboutOneMore(done: seq<Item>, item: Item, k: string)
    ensures About(done + [item], k) == About(done, k) + if ItemKey(item) == k then [item] else []
  {
    Snoc(done, item);
  }

  /** The items listed: one for each credential, with its key, normal, and made from a group that is not empty. */
  lemma MergedItem(secret: string -> bool, items: seq<Item>, i: nat)
    requires AllNormal(secret, items) && i < |Merged(items)|
    ensures ItemKey(Merged(items)[i]) == ItemKey(FirstOfEach(ItemKey, items)[i])
    ensures NormalItem(secret, Merged(items)[i])
    ensures var group := About(items, ItemKey(Merged(items)[i]));
            group != [] && Merged(items)[i] == Combined(group)
  {
    var first := FirstOfEach(ItemKey, items)[i];
    FirstOfEachExactly(ItemKey, items);
    assert IsFirst(ItemKey, items, first);
    assert first in items;
    var group := About(items, ItemKey(first));
    assert first in group;
    CombinedIsNormal(secret, group);
    assert group[0] in group;
  }

  lemma MergedKeys(secret: string -> bool, items: seq<Item>)
    requires AllNormal(secret, items)
    ensures Keys(ItemKey, Merged(items)) == Keys(ItemKey, items)
    ensures DistinctKeys(ItemKey, Merged(items)) && AllNormal(secret, Merged(items))
  {
    var firsts, merged := FirstOfEach(ItemKey, items), Merged(items);
    FirstOfEachExactly(ItemKey, items);
    forall i | 0 <= i < |merged| ensures ItemKey(merged[i]) == ItemKey(firsts[i]) && NormalItem(secret, merged[i]) {
      MergedItem(secret, items, i);
    }
    assert Keys(ItemKey, merged) == Keys(ItemKey, firsts);
  }

  /** Adding an item adds its group or extends the one group it belongs to, and touches no other. */
  lemma MergedOneMore(secret: string -> bool, done: seq<Item>, item: Item)
    requires AllNormal(secret, done + [item])
    ensures Merged(done + [item]) == Absorb(Merged(done), item)
  {
    var merged, next := Merged(done), Merged(done + [item]);
    NormalPrefix(secret, done, item);
    FirstsOneMore(secret, done, item);
    assert |next| == |Absorb(merged, item)|;
    forall i | 0 <= i < |next| ensures next[i] == Absorb(merged, item)[i] {
      if i < |merged| {
        ListedOneMore(secret, done, item, i);
      } else {
        ListedLast(secret, done, item);
      }
    }
  }

  lemma ListedLast(secret: string -> bool, done: seq<Item>, item: Item)
    requires AllNormal(secret, done) && NormalItem(secret, item) && |Merged(done)| < |Merged(done + [item])|
    ensures |Merged(done + [item])| == |Merged(done)| + 1
    ensures Merged(done + [item])[|Merged(done)|] == item && Absorb(Merged(done), item) == Merged(done) + [item]
  {
    FirstsOneMore(secret, done, item);
    NewGroup(secret, done, item);
  }

  lemma ListedOneMore(secret: string -> bool, done: seq<Item>, item: Item, i: nat)
    requires AllNormal(secret, done) && NormalItem(secret, item) && i < |Merged(done)|
    ensures |Merged(done)| <= |Merged(done + [item])|
    ensures Merged(done + [item])[i] == Absorb(Merged(done), item)[i]
  {
    FirstsOneMore(secret, done, item);
    OldGroup(secret, done, item, i);
    OnlyThere(Merged(done), ItemKey(item), i);
  }

  lemma NormalPrefix(secret: string -> bool, done: seq<Item>, item: Item)
    requires AllNormal(secret, done + [item])
    ensures AllNormal(secret, done) && NormalItem(secret, item)
  {
    assert forall x | x in done :: x in done + [item];
    assert item in done + [item];
  }

  lemma OnlyThere(merged: seq<Item>, k: string, i: nat)
    requires DistinctKeys(ItemKey, merged) && i < |merged|
    ensures ItemKey(merged[i]) == k <==> i == IndexOf(merged, k)
  {
    var at := IndexOf(merged, k);
    assert at < |merged| && at != i ==> ItemKey(merged[at]) != ItemKey(merged[i]);
  }

  lemma FirstsOneMore(secret: string -> bool, done: seq<Item>, item: Item)
    requires AllNormal(secret, done)
    ensures FirstOfEach(ItemKey, done + [item])
            == FirstOfEach(ItemKey, done) + if IndexOf(Merged(done), ItemKey(item)) == |Merged(done)|
              then [item] else []
    ensures IndexOf(Merged(done), ItemKey(item)) == |Merged(done)| <==> ItemKey(item) !in Keys(ItemKey, done)
    ensures DistinctKeys(ItemKey, Merged(done))
  {
    Snoc(done, item);
    FirstOfEachExactly(ItemKey, done);
    MergedKeys(secret, done);
    assert FirstOfEach(ItemKey, done) + [] == FirstOfEach(ItemKey, done);
  }

  lemma {:induction false} NothingAbout(items: seq<Item>, k: string)
    requires forall i | 0 <= i < |items| :: ItemKey(items[i]) != k
    ensures About(items, k) == []
    decreases |items|
  {
    if items != [] {
      NothingAbout(items[..|items| - 1], k);
    }
  }

  lemma NewGroup(secret: string -> bool, done: seq<Item>, item: Item)
    requires NormalItem(secret, item) && ItemKey(item) !in Keys(ItemKey, done)
    ensures CombinedAbout(done + [item], item) == item
  {
    var k := ItemKey(item);
    AboutOneMore(done, item, k);
    NothingAbout(done, k);
    CombinedOne(secret, item);
    assert [] + [item] == [item];
  }

  lemma OldGroup(secret: string -> bool, done: seq<Item>, item: Item, i: nat)
    requires AllNormal(secret, done) && NormalItem(secret, item) && i < |Merged(done)|
    ensures var e := Merged(done)[i];
            CombinedAbout(done + [item], FirstOfEach(ItemKey, done)[i])
            == if ItemKey(e) == ItemKey(item) then MergeTwo(e, item) else e
  {
    MergedItem(secret, done, i);
    var e := Merged(done)[i];
    var group := About(done, ItemKey(e));
    AboutOneMore(done, item, ItemKey(e));
    if ItemKey(e) == ItemKey(item) {
      CombinedOneMore(secret, group, item);
    } else {
      assert group + [] == group;
    }
  }

  // ---- merging as a whole ----

  /**
    What a merged list holds for each credential: of each permission and usage key
    the entry said first, and nothing else; none of the keys said is missing; and the
    top status.
   */
  lemma MergedMeaning(secret: string -> bool, items: seq<Item>, i: nat)
    requires AllNormal(secret, items) && i < |Merged(items)|
    ensures var m := Merged(items)[i];
            (forall p | p in m.permissions :: exists x :: x in About(items, ItemKey(m)) && p in x.permissions)
            && (forall p :: p in m.permissions <==> IsFirst(PermissionKey, AllPermissions(About(items, ItemKey(m))), p))
            && (forall u :: u in m.usages <==> IsFirst(UsageKey, AllUsages(About(items, ItemKey(m))), u))
            && (forall x, p | x in About(items, ItemKey(m)) && p in x.permissions ::
                  PermissionKey(p) in Keys(PermissionKey, m.permissions))
            && (forall u | u in m.usages :: exists x :: x in About(items, ItemKey(m)) && u in x.usages)
            && (forall x, u | x in About(items, ItemKey(m)) && u in x.usages ::
                  UsageKey(u) in Keys(UsageKey, m.usages))
            && DistinctKeys(PermissionKey, m.permissions) && DistinctKeys(UsageKey, m.usages)
            && (exists x :: x in About(items, ItemKey(m)) && x.status == m.status)
            && (forall x | x in About(items, ItemKey(m)) :: Priority(x.status) <= Priority(m.status))
  {
    MergedItem(secret, items, i);
    var m := Merged(items)[i];
    var group := About(items, ItemKey(m));
    PermissionUnion(group);
    UsageUnion(group);
    TopStatusIsHighest(group);
  }

  lemma PermissionUnion(group: seq<Item>)
    requires group != []
    ensures var ps := Combined(group).permissions;
            DistinctKeys(PermissionKey, ps)
            && (forall p :: p in ps <==> IsFirst(PermissionKey, AllPermissions(group), p))
            && (forall p | p in ps :: exists x :: x in group && p in x.permissions)
            && (forall x, p | x in group && p in x.permissions :: PermissionKey(p) in Keys(PermissionKey, ps))
  {
    var all, ps := AllPermissions(group), Combined(group).permissions;
    FirstOfEachExactly(PermissionKey, all);
    forall p | p in ps ensures exists x :: x in group && p in x.permissions {
      assert IsFirst(PermissionKey, all, p);
      PermissionsOfGroup(group, p);
    }
    forall x, p | x in group && p in x.permissions ensures PermissionKey(p) in Keys(PermissionKey, ps) {
      PermissionsOfGroup(group, p);
      assert p in all;
    }
  }

  lemma UsageUnion(group: seq<Item>)
    requires group != []
    ensures var us := Combined(group).usages;
            DistinctKeys(UsageKey, us)
            && (forall u :: u in us <==> IsFirst(UsageKey, AllUsages(group), u))
            && (forall u | u in us :: exists x :: x in group && u in x.usages)
            && (forall x, u | x in group && u in x.usages :: UsageKey(u) in Keys(UsageKey, us))
  {
    var all, us := AllUsages(group), Combined(group).usages;
    FirstOfEachExactly(UsageKey, all);
    forall u | u in us ensures exists x :: x in group && u in x.usages {
      assert IsFirst(UsageKey, all, u);
      UsagesOfGroup(group, u);
    }
    forall x, u | x in group && u in x.usages ensures UsageKey(u) in Keys(UsageKey, us) {
      UsagesOfGroup(group, u);
      assert u in all;
    }
  }

  /** k is the key of the item at i and of none before it. */
  predicate FirstKeyAt(items: seq<Item>, k: string, i: int) {
    0 <= i < |items| && ItemKey(items[i]) == k && forall j | 0 <= j < i :: ItemKey(items[j]) != k
  }

  /**
    What is listed for a credential: the identity of the first item about it, of each
    permission and usage key the entry said first, and the status by the words.
   */
  ghost predicate Summarises(items: seq<Item>, m: Item) {
    var group := About(items, ItemKey(m));
    && group != []
    && m.name == group[0].name && m.provider == group[0].provider && m.ref == group[0].ref
    && m.credentialType == group[0].credentialType
    && StatusByWord(group, m.status)
    && DistinctKeys(PermissionKey, m.permissions) && DistinctKeys(UsageKey, m.usages)
    && (forall p :: p in m.permissions <==> IsFirst(PermissionKey, AllPermissions(group), p))
    && (forall u :: u in m.usages <==> IsFirst(UsageKey, AllUsages(group), u))
  }

  /** One summary for each credential, in the order in which the credentials are first seen. */
  ghost predicate MergeOutcome(items: seq<Item>, merged: seq<Item>) {
    && DistinctKeys(ItemKey, merged) && Keys(ItemKey, merged) == Keys(ItemKey, items)
    && (forall i | 0 <= i < |merged| :: Summarises(items, merged[i]))
    && forall a, b, i, j | 0 <= a < b < |merged| ::
         FirstKeyAt(items, ItemKey(merged[a]), i) && FirstKeyAt(items, ItemKey(merged[b]), j) ==> i < j
  }

  lemma MergedSummarises(secret: string -> bool, items: seq<Item>, i: nat)
    requires AllNormal(secret, items) && i < |Merged(items)|
    ensures Summarises(items, Merged(items)[i])
  {
    MergedItem(secret, items, i);
    var group := About(items, ItemKey(Merged(items)[i]));
    PermissionUnion(group);
    UsageUnion(group);
    TopStatusByWord(group);
  }

  lemma {:induction false} FirstsInOrder(items: seq<Item>, a: nat, b: nat, i: int, j: int)
    requires a < b < |FirstOfEach(ItemKey, items)|
    requires FirstKeyAt(items, ItemKey(FirstOfEach(ItemKey, items)[a]), i)
    requires FirstKeyAt(items, ItemKey(FirstOfEach(ItemKey, items)[b]), j)
    ensures i < j
    decreases |items|
  {
    var init, last := items[..|items| - 1], items[|items| - 1];
    var kept, all := FirstOfEach(ItemKey, init), FirstOfEach(ItemKey, items);
    FirstOfEachExactly(ItemKey, init);
    assert items == init + [last];
    assert all[a] == kept[a];
    assert ItemKey(kept[a]) in Keys(ItemKey, init);
    assert FirstKeyAt(init, ItemKey(all[a]), i);
    if b < |kept| {
      assert all[b] == kept[b] && ItemKey(kept[b]) in Keys(ItemKey, init);
      assert FirstKeyAt(init, ItemKey(all[b]), j);
      FirstsInOrder(init, a, b, i, j);
    } else {
      assert j == |init|;
    }
  }

  lemma MergeMeets(secret: string -> bool, items: seq<Item>)
    requires AllNormal(secret, items)
    ensures MergeOutcome(items, Merged(items))
  {
    var merged := Merged(items);
    MergedKeys(secret, items);
    forall i | 0 <= i < |merged| ensures Summarises(items, merged[i]) {
      MergedSummarises(secret, items, i);
    }
    forall a, b, i, j | 0 <= a < b < |merged| && FirstKeyAt(items, ItemKey(merged[a]), i)
                        && FirstKeyAt(items, ItemKey(merged[b]), j)
      ensures i < j
    {
      MergedItem(secret, items, a);
      MergedItem(secret, items, b);
      FirstsInOrder(items, a, b, i, j);
    }
  }

  // ---- the union, for fields without a NUL ----

  datatype Triple = Triple(a: string, b: string, c: string)

  predicate NulFree(t: Triple) {
    '\0' !in t.a && '\0' !in t.b && '\0' !in t.c
  }

  /** A permission without its source. */
  function Granted(p: Permission): Triple {
    Triple(p.resourceType, p.resourceName, p.permission)
  }

  function Used(u: Usage): Triple {
    Triple(u.usedByType, u.usedByName, u.context)
  }

  ghost predicate NulFreeItem(x: Item) {
    (forall p | p in x.permissions :: NulFree(Granted(p))) && (forall u | u in x.usages :: NulFree(Used(u)))
  }

  ghost predicate Grants(items: seq<Item>, t: Triple) {
    exists x, p :: x in items && p in x.permissions && Granted(p) == t
  }

  lemma UsedExactly(group: seq<Item>)
    requires group != [] && forall x | x in group :: NulFreeItem(x)
    ensures forall u :: u in Combined(group).usages <==> exists x :: x in group && u in x.usages
  {
    UsageUnion(group);
    var us := Combined(group).usages;
    forall x, u | x in group && u in x.usages ensures u in us {
      assert UsageKey(u) in Keys(UsageKey, us) && NulFree(Used(u));
      var k :| 0 <= k < |us| && UsageKey(us[k]) == UsageKey(u);
      KeyIsTheTripleExactly(u.usedByType, u.usedByName, u.context);
      assert us[k] == u;
    }
  }

  lemma GrantedExactly(group: seq<Item>)
    requires group != [] && forall x | x in group :: NulFreeItem(x)
    ensures forall t :: Grants([Combined(group)], t) <==> Grants(group, t)
  {
    PermissionUnion(group);
    var m := Combined(group);
    forall t | Grants(group, t) ensures Grants([m], t) {
      var x, p :| x in group && p in x.permissions && Granted(p) == t;
      assert PermissionKey(p) in Keys(PermissionKey, m.permissions) && NulFree(Granted(p));
      var k :| 0 <= k < |m.permissions| && PermissionKey(m.permissions[k]) == PermissionKey(p);
      KeyIsTheTripleExactly(p.resourceType, p.resourceName, p.permission);
      assert m in [m] && m.permissions[k] in m.permissions && Granted(m.permissions[k]) == t;
    }
    forall t | Grants([m], t) ensures Grants(group, t) {
      var p :| p in m.permissions && Granted(p) == t;
      var x :| x in group && p in x.permissions;
    }
  }

  /**
    Where no field holds a NUL, a merged item is about exactly the union: it lists
    the usages that some item lists, and grants what some item grants (with the
    source named first, where several differ in nothing else).
   */
  lemma MergedIsTheUnion(secret: string -> bool, items: seq<Item>, i: nat)
    requires AllNormal(secret, items) && i < |Merged(items)| && forall x | x in items :: NulFreeItem(x)
    ensures var m := Merged(items)[i];
            (forall u :: u in m.usages <==> exists x :: x in About(items, ItemKey(m)) && u in x.usages)
            && (forall t :: Grants([m], t) <==> Grants(About(items, ItemKey(m)), t))
  {
    MergedItem(secret, items, i);
    var group := About(items, ItemKey(Merged(items)[i]));
    UsedExactly(group);
    GrantedExactly(group);
  }

  lemma {:induction false} NothingToMerge(secret: string -> bool, items: seq<Item>)
    requires AllNormal(secret, items) && DistinctKeys(ItemKey, items)
    ensures Merged(items) == items
    decreases |items|
  {
    if items != [] {
      var init, last := items[..|items| - 1], items[|items| - 1];
      assert items == init + [last];
      NothingToMerge(secret, init);
      MergedOneMore(secret, init, last);
      NewKey(ItemKey, init, last);
    }
  }

  /** Merging twice is merging once. */
  lemma MergedIsSettled(secret: string -> bool, items: seq<Item>)
    requires AllNormal(secret, items)
    ensures Merged(Merged(items)) == Merged(items)
  {
    MergedKeys(secret, items);
    NothingToMerge(secret, Merged(items));
  }

  lemma OneMoreInPieces(secret: string -> bool, a: seq<Item>, merged: seq<Item>, item: Item)
    requires AllNormal(secret, a) && AllNormal(secret, merged) && NormalItem(secret, item)
    requires Merged(merged) == Merged(a)
    ensures Merged(merged + [item]) == Merged(a + [item])
  {
    MergedOneMore(secret, a, item);
    MergedOneMore(secret, merged, item);
  }

  lemma BothNormal(secret: string -> bool, a: seq<Item>, b: seq<Item>)
    requires AllNormal(secret, a) && AllNormal(secret, b)
    ensures AllNormal(secret, a + b)
  {
  }

  /** Merging part of a batch before the rest makes no difference. */
  lemma {:induction false} MergeInPieces(secret: string -> bool, a: seq<Item>, b: seq<Item>)
    requires AllNormal(secret, a) && AllNormal(secret, b)
    ensures Merged(Merged(a) + b) == Merged(a + b)
    decreases |b|
  {
    if b == [] {
      MergedIsSettled(secret, a);
      assert a + b == a && Merged(a) + b == Merged(a);
    } else {
      var init, last := b[..|b| - 1], b[|b| - 1];
      MergeInPieces(secret, a, init);
      MergedKeys(secret, a);
      assert b == init + [last];
      OneMorePiece(secret, a, Merged(a), init, last);
    }
  }

  lemma OneMorePiece(secret: string -> bool, a: seq<Item>, m: seq<Item>, init: seq<Item>, last: Item)
    requires AllNormal(secret, a) && AllNormal(secret, m) && AllNormal(secret, init) && NormalItem(secret, last)
    requires Merged(m + init) == Merged(a + init)
    ensures Merged(m + (init + [last])) == Merged(a + (init + [last]))
  {
    BothNormal(secret, a, init);
    BothNormal(secret, m, init);
    OneMoreInPieces(secret, a + init, m + init, last);
    assert a + (init + [last]) == (a + init) + [last] && m + (init + [last]) == (m + init) + [last];
  }

  /** The loop's index map: where each credential stands in the list. */
  ghost predicate Indexes(index: map<string, nat>, merged: seq<Item>) {
    index.Keys == Keys(ItemKey, merged) && forall k | k in index :: index[k] == IndexOf(merged, k)
  }

  lemma IndexesKept(index: map<string, nat>, merged: seq<Item>, next: seq<Item>)
    requires Indexes(index, merged) && |merged| == |next|
    requires forall i | 0 <= i < |next| :: ItemKey(next[i]) == ItemKey(merged[i])
    ensures Indexes(index, next)
  {
    assert Keys(ItemKey, next) == Keys(ItemKey, merged);
  }

  lemma IndexesGrow(index: map<string, nat>, merged: seq<Item>, item: Item)
    requires Indexes(index, merged) && ItemKey(item) !in index
    ensures Indexes(index[ItemKey(item) := |merged|], merged + [item])
  {
    KeysOneMore(ItemKey, merged, item);
    var all := merged + [item];
    forall k | k in Keys(ItemKey, all) ensures IndexOf(all, k) == if k == ItemKey(item) then |merged| else index[k] {
      assert forall j | 0 <= j < |merged| :: all[j] == merged[j];
    }
  }

  /** The turn of an item about a credential not listed yet. */
  lemma NewTurn(secret: string -> bool, done: seq<Item>, item: Item, index: map<string, nat>)
    requires AllNormal(secret, done + [item]) && Indexes(index, Merged(done)) && ItemKey(item) !in index
    ensures Merged(done + [item]) == Merged(done) + [item]
    ensures Indexes(index[ItemKey(item) := |Merged(done)|], Merged(done + [item]))
  {
    MergedOneMore(secret, done, item);
    IndexesGrow(index, Merged(done), item);
  }

  lemma SameKey(e: Item, item: Item)
    ensures ItemKey(MergeTwo(e, item)) == ItemKey(e)
  {
  }

  /** The turn of an item about a credential listed before. */
  lemma OldTurn(secret: string -> bool, done: seq<Item>, item: Item, index: map<string, nat>)
    requires AllNormal(secret, done + [item]) && Indexes(index, Merged(done)) && ItemKey(item) in index
    ensures var merged, i := Merged(done), index[ItemKey(item)];
            i < |merged| && Merged(done + [item]) == merged[i := MergeTwo(merged[i], item)]
    ensures Indexes(index, Merged(done + [item]))
  {
    var merged, next := Merged(done), Merged(done + [item]);
    MergedOneMore(secret, done, item);
    var at := index[ItemKey(item)];
    SameKey(merged[at], item);
    forall i | 0 <= i < |next| ensures ItemKey(next[i]) == ItemKey(merged[i]) {
      assert i != at ==> next[i] == merged[i];
    }
    IndexesKept(index, merged, next);
  }

  /** mergeCredentialInventoryItems. */
  method MergeCredentialInventoryItems(ghost secret: string -> bool, items: seq<Item>) returns (merged: seq<Item>)
    requires AllNormal(secret, items)
    ensures merged == Merged(items)
    ensures MergeOutcome(items, merged)
  {
    MergeMeets(secret, items);
    merged := [];
    var indexByRef: map<string, nat> := map[];
    for n := 0 to |items|
      invariant merged == Merged(items[..n])
      invariant Indexes(indexByRef, merged)
    {
      var item := items[n];
      assert items[..n + 1] == items[..n] + [item];
      var key := ItemKey(item);
      if key !in indexByRef {
        NewTurn(secret, items[..n], item, indexByRef);
        indexByRef := indexByRef[key := |merged|];
        merged := merged + [item];
      } else {
        OldTurn(secret, items[..n], item, indexByRef);
        var i := indexByRef[key];
        merged := merged[i := MergeTwo(merged[i], item)];
      }
    }
    assert items[..|items|] == items;
  }

  // ---- a batch ----

  function Cleaner(secret: string -> bool): Item -> Cleaned<Item> {
    item => NormalizeItem(secret, item)
  }

  /** normalizeCredentialInventoryInput. */
  function NormalizeBatch(secret: string -> bool, items: seq<Item>): Cleaned<seq<Item>> {
    if |items| == 0 || |items| > MAX_BATCH then Bad
    else if forall i | 0 <= i < |items| :: Cleaner(secret)(items[i]).Fine?
    then Fine(Merged(CleanAll(Cleaner(secret), items)))
    else Bad
  }

  /** A batch is accepted exactly if it has one to 500 items, each of them acceptable. */
  lemma BatchAcceptedExactly(secret: string -> bool, items: seq<Item>)
    ensures NormalizeBatch(secret, items).Fine? <==>
              1 <= |items| <= 500 && forall i | 0 <= i < |items| :: NormalizeItem(secret, items[i]).Fine?
  {
    assert forall i | 0 <= i < |items| :: Cleaner(secret)(items[i]) == NormalizeItem(secret, items[i]);
  }

  lemma CleanedBatchIsNormal(secret: string -> bool, items: seq<Item>)
    requires forall i | 0 <= i < |items| :: Cleaner(secret)(items[i]).Fine?
    ensures AllNormal(secret, CleanAll(Cleaner(secret), items))
  {
    forall x | x in CleanAll(Cleaner(secret), items) ensures NormalItem(secret, x) {
      var i :| 0 <= i < |items| && CleanAll(Cleaner(secret), items)[i] == x;
      NormalizedItemIsNormal(secret, items[i]);
    }
  }

  lemma {:induction false} FirstOfEachIsShort<T>(key: T -> string, xs: seq<T>)
    ensures |FirstOfEach(key, xs)| <= |xs| && (xs != [] ==> FirstOfEach(key, xs) != [])
    decreases |xs|
  {
    if xs != [] {
      FirstOfEachIsShort(key, xs[..|xs| - 1]);
    }
  }

  lemma MergedBatchStays(secret: string -> bool, merged: seq<Item>)
    requires AllNormal(secret, merged) && DistinctKeys(ItemKey, merged) && 0 < |merged| <= MAX_BATCH
    ensures NormalizeBatch(secret, merged) == Fine(merged)
  {
    forall i | 0 <= i < |merged| ensures Cleaner(secret)(merged[i]) == Fine(merged[i]) {
      assert merged[i] in merged;
      NormalizedItemIsNormal(secret, merged[i]);
    }
    assert CleanAll(Cleaner(secret), merged) == merged;
    NothingToMerge(secret, merged);
  }

  /** An accepted batch is stored in a form that is accepted again and changes no more. */
  lemma BatchIsSettled(secret: string -> bool, items: seq<Item>)
    requires NormalizeBatch(secret, items).Fine?
    ensures NormalizeBatch(secret, NormalizeBatch(secret, items).value) == NormalizeBatch(secret, items)
  {
    var cleaned := CleanAll(Cleaner(secret), items);
    CleanedBatchIsNormal(secret, items);
    MergedKeys(secret, cleaned);
    FirstOfEachIsShort(ItemKey, cleaned);
    MergedBatchStays(secret, Merged(cleaned));
  }
}
