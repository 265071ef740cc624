/** Object naming in the file storage: uploads for a resource are stored
    under a per-resource folder, and listing for a resource asks the object
    store for that folder's prefix. The listing is MinIO's default, one level
    deep: a name with a further slash after the prefix shows as the folder
    entry ending at that slash. The object store is a map from names to
    contents; bucket creation, streaming and content types are not
    modelled. */
module FileStorage {
  import opened Wrappers
  import opened Text

  type Bytes = seq<bv8>

  type ObjectStore = map<string, Bytes>

  const FolderPrefix: string := "resource-"

  /** The folder of a resource's files: `resource-<id>/`. */
  function Folder(resourceId: int): (r: string)
    ensures StartsWith(r, FolderPrefix) && |r| > |FolderPrefix|
    ensures r[|r| - 1] == '/'
  {
    FolderPrefix + LongText(resourceId) + "/"
  }

  /** `buildObjectName`: the name unchanged without a resource, otherwise the
      name inside the resource's folder. */
  function BuildObjectName(original: string, resourceId: Option<int>): (r: string)
    ensures resourceId.None? ==> r == original
    ensures resourceId.Some? ==> (StartsWith(r, Folder(resourceId.value))
                                  && r[|Folder(resourceId.value)|..] == original)
  {
    match resourceId
    case None => original
    case Some(id) =>
      var name := Folder(id) + original;
      assert name[..|Folder(id)|] == Folder(id);
      name
  }

  /** The prefix `list` asks for: the resource's folder, or none. */
  function ListPrefix(resourceId: Option<int>): (r: Option<string>)
    ensures r.Some? <==> resourceId.Some?
  {
    match resourceId
    case None => None
    case Some(id) => Some(Folder(id))
  }

  /** Whether a stored name is listed for a prefix: every name when there is
      none. */
  predicate Listed(name: string, prefix: Option<string>) {
    prefix.None? || StartsWith(name, prefix.value)
  }

  /** `upload`: stores the content under the built name and returns that
      name. */
  function Upload(store: ObjectStore, objectName: string, content: Bytes, resourceId: Option<int>)
    : (r: (string, ObjectStore))
    ensures r.0 == BuildObjectName(objectName, resourceId)
    ensures r.1 == store[r.0 := content]
  {
    var key := BuildObjectName(objectName, resourceId);
    (key, store[key := content])
  }

  /** `download(objectName, resourceId)`: reads the built name; a missing
      object is an error, modelled as `None`. */
  function Download(store: ObjectStore, objectName: string, resourceId: Option<int>): (r: Option<Bytes>)
    ensures r.Some? <==> BuildObjectName(objectName, resourceId) in store
  {
    var key := BuildObjectName(objectName, resourceId);
    if key in store then Some(store[key]) else None
  }

  /** The prefix as the object store applies it: no prefix is the empty
      one. */
  function PrefixText(resourceId: Option<int>): (r: string)
    ensures forall n :: Listed(n, ListPrefix(resourceId)) <==> StartsWith(n, r)
  {
    match resourceId
    case None => ""
    case Some(id) => Folder(id)
  }

  /** The position of the first slash, or the length when there is none. */
  function FirstSlash(s: string): (i: nat)
    ensures i <= |s|
    ensures i < |s| ==> s[i] == '/'
    ensures forall k :: 0 <= k < i ==> s[k] != '/'
  {
    if |s| == 0 || s[0] == '/' then 0 else 1 + FirstSlash(s[1..])
  }

  /** The entry a one-level listing shows for a stored name under `prefix`:
      the name itself, or the folder up to the first slash after the
      prefix. */
  function Entry(name: string, prefix: string): (e: string)
    requires StartsWith(name, prefix)
  {
    var i := FirstSlash(name[|prefix|..]);
    if i < |name| - |prefix| then name[..|prefix| + i + 1] else name
  }

  /** `list(resourceId)`: the one-level entries of the stored names under
      the prefix of a resource (or of none). */
  function List(store: ObjectStore, resourceId: Option<int>): (r: set<string>)
    ensures forall n :: n in store && StartsWith(n, PrefixText(resourceId)) ==> Entry(n, PrefixText(resourceId)) in r
    ensures forall e :: e in r ==> exists n :: n in store && StartsWith(n, PrefixText(resourceId))
                                              && e == Entry(n, PrefixText(resourceId))
  {
    var p := PrefixText(resourceId);
    set n | n in store && StartsWith(n, p) :: Entry(n, p)
  }

  // ---------------------------------------------------------------------------
  // Properties
  // ---------------------------------------------------------------------------

  /** Download reads what upload wrote, under the same name and resource. */
  lemma DownloadReadsUpload(store: ObjectStore, objectName: string, content: Bytes, resourceId: Option<int>)
    ensures Download(Upload(store, objectName, content, resourceId).1, objectName, resourceId) == Some(content)
  {
  }

  /** A rest after the prefix is one level deep when no slash comes before
      its last character. */
  predicate OneLevel(rest: string) {
    forall k :: 0 <= k < |rest| - 1 ==> rest[k] != '/'
  }

  /** A folder entry: a non-empty rest ending in a slash. */
  predicate FolderRest(rest: string) {
    |rest| > 0 && rest[|rest| - 1] == '/'
  }

  /** The first slash is the only slash before it. */
  lemma FirstSlashIs(s: string, i: nat)
    requires i < |s| && s[i] == '/'
    requires forall k :: 0 <= k < i ==> s[k] != '/'
    ensures FirstSlash(s) == i
  {
  }

  /** The entry of a stored name is under the prefix, one level deep, and is
      either the name itself or a folder that begins it. */
  lemma EntryShape(name: string, prefix: string)
    requires StartsWith(name, prefix)
    ensures var e := Entry(name, prefix);
            && StartsWith(e, prefix) && OneLevel(e[|prefix|..])
            && (e == name || (FolderRest(e[|prefix|..]) && StartsWith(name, e)))
  {
    var rest := name[|prefix|..];
    var i := FirstSlash(rest);
    var e := Entry(name, prefix);
    if i < |rest| {
      assert e[..|prefix|] == prefix;
      assert e[|prefix|..] == rest[..i + 1];
    } else {
      assert e[|prefix|..] == rest;
    }
  }

  /** A one-level name under the prefix is its own entry, and a one-level
      folder is the entry of every name it begins. */
  lemma EntryOfOneLevel(name: string, e: string, prefix: string)
    requires StartsWith(e, prefix) && OneLevel(e[|prefix|..]) && StartsWith(name, e)
    requires e == name || FolderRest(e[|prefix|..])
    ensures StartsWith(name, prefix) && Entry(name, prefix) == e
  {
    assert name[..|prefix|] == e[..|prefix|];
    var rest := name[|prefix|..];
    var er := e[|prefix|..];
    if FolderRest(er) {
      assert forall k :: 0 <= k < |er| ==> rest[k] == er[k];
      FirstSlashIs(rest, |er| - 1);
      assert name[..|prefix| + |er|] == e;
    } else {
      assert e == name && rest == er;
    }
  }

  /** What a listing holds, independently of how it is computed: exactly
      the one-level names under the prefix that are stored, and the
      one-level folders under the prefix that begin a stored name. */
  lemma ListMembership(store: ObjectStore, resourceId: Option<int>, e: string)
    ensures var p := PrefixText(resourceId);
            e in List(store, resourceId) <==>
              && StartsWith(e, p) && OneLevel(e[|p|..])
              && (e in store || (FolderRest(e[|p|..]) && exists n :: n in store && StartsWith(n, e)))
  {
    var p := PrefixText(resourceId);
    if e in List(store, resourceId) {
      var n :| n in store && StartsWith(n, p) && e == Entry(n, p);
      EntryShape(n, p);
    }
    if StartsWith(e, p) && OneLevel(e[|p|..]) {
      if e in store {
        EntryOfOneLevel(e, e, p);
      } else if FolderRest(e[|p|..]) && exists n :: n in store && StartsWith(n, e) {
        var n :| n in store && StartsWith(n, e);
        EntryOfOneLevel(n, e, p);
      }
    }
  }

  /** A file uploaded for a resource under a name without a slash is listed
      for that resource; in the unfiltered listing it shows as its
      resource's folder, or as itself when no resource is given. */
  lemma UploadIsListed(store: ObjectStore, objectName: string, content: Bytes, resourceId: Option<int>)
    requires '/' !in objectName
    ensures var (key, next) := Upload(store, objectName, content, resourceId);
            && key in List(next, resourceId)
            && (resourceId.None? ==> key in List(next, None))
            && (resourceId.Some? ==> Folder(resourceId.value) in List(next, None))
  {
    var (key, next) := Upload(store, objectName, content, resourceId);
    var p := PrefixText(resourceId);
    assert OneLevel(key[|p|..]) by {
      assert key[|p|..] == objectName;
      forall k | 0 <= k < |objectName| - 1
        ensures objectName[k] != '/'
      {
        assert objectName[k] in objectName;
      }
    }
    EntryOfOneLevel(key, key, p);
    if resourceId.Some? {
      FolderIsListed(next, key, resourceId.value);
    }
  }

  /** Any stored name in a resource's folder shows the folder in the
      unfiltered listing. */
  lemma FolderIsListed(store: ObjectStore, name: string, id: int)
    requires name in store && StartsWith(name, Folder(id))
    ensures Folder(id) in List(store, None)
  {
    var f := Folder(id);
    var stem := FolderPrefix + LongText(id);
    assert '/' !in stem by {
      forall k | 0 <= k < |stem|
        ensures stem[k] != '/'
      {
        if k >= |FolderPrefix| {
          assert stem[k] == LongText(id)[k - |FolderPrefix|];
        }
      }
    }
    assert OneLevel(f) by {
      forall k | 0 <= k < |f| - 1
        ensures f[k] != '/'
      {
        assert f[k] == stem[k];
        assert stem[k] in stem;
      }
    }
    assert f[|PrefixText(None)|..] == f;
    EntryOfOneLevel(name, f, PrefixText(None));
  }

  /** A name with a slash inside a resource's folder is not listed itself:
      the listing for the resource shows its sub-folder instead. */
  lemma NestedUploadShowsFolder(store: ObjectStore, a: string, b: string, content: Bytes, id: int)
    requires '/' !in a
    ensures var (key, next) := Upload(store, a + "/" + b, content, Some(id));
            Folder(id) + a + "/" in List(next, Some(id))
  {
    var (key, next) := Upload(store, a + "/" + b, content, Some(id));
    var f := Folder(id);
    var e := f + a + "/";
    assert key == f + (a + "/" + b);
    assert StartsWith(key, e) by {
      assert key[..|e|] == e;
    }
    assert e[|f|..] == a + "/";
    assert OneLevel(e[|f|..]) by {
      forall k | 0 <= k < |a|
        ensures (a + "/")[k] != '/'
      {
        assert a[k] in a;
      }
    }
    assert StartsWith(e, f) by {
      assert e[..|f|] == f;
    }
    EntryOfOneLevel(key, e, f);
  }

  lemma {:induction false} FirstSlashAfter(p: string, y: string)
    requires '/' !in p
    ensures FirstSlash(p + "/" + y) == |p|
  {
    if |p| > 0 {
      assert (p + "/" + y)[1..] == p[1..] + "/" + y;
      assert p[0] != '/' by { assert p[0] in p; }
      FirstSlashAfter(p[1..], y);
    }
  }

  /** Two strings followed by a slash, neither containing one: if one
      spelling starts with the other's, they are the same string. */
  lemma SlashTerminatedPrefix(a: string, b: string, x: string)
    requires '/' !in a && '/' !in b
    requires StartsWith(a + "/" + x, b + "/")
    ensures a == b
  {
    var s := a + "/" + x;
    assert s == b + "/" + s[|b| + 1..];
    FirstSlashAfter(a, x);
    FirstSlashAfter(b, s[|b| + 1..]);
    assert a == s[..|a|] == b;
  }

  /** Names built for one resource are never listed for another, even when
      one id's digits begin the other's ("resource-1/" and "resource-10/"). */
  lemma FoldersAreDisjoint(original: string, r1: int, r2: int)
    requires r1 != r2
    ensures !Listed(BuildObjectName(original, Some(r1)), ListPrefix(Some(r2)))
  {
    var a := LongText(r1);
    var b := LongText(r2);
    if StartsWith(BuildObjectName(original, Some(r1)), Folder(r2)) {
      var name := BuildObjectName(original, Some(r1));
      assert name == FolderPrefix + (a + "/" + original);
      assert Folder(r2) == FolderPrefix + (b + "/");
      assert StartsWith(a + "/" + original, b + "/") by {
        assert name[|FolderPrefix|..] == a + "/" + original;
        assert (b + "/") == Folder(r2)[|FolderPrefix|..];
      }
      SlashTerminatedPrefix(a, b, original);
      LongTextInjective(r1, r2);
    }
  }
}
