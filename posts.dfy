/** The post record shared by the editor and the dashboard, the browser's local
    "posts" list, and the order-preserving filter both pages apply to post lists. */
module Posts {
  import opened Seqs
  import opened Text

  datatype Option<T> = None | Some(value: T)

  /** Outcome of one call to the remote database: an error, or the data it returned. */
  datatype Remote<T> = Failed | Ok(value: T)

  /** A post id as it sits in a stored record. The editor always writes strings; records
      read back from JSON may also hold a number, which `toString` renders in decimal. */
  datatype Id = Str(s: string) | Num(n: nat)

  /** `id.toString()`. */
  function IdString(id: Id): (r: string)
    ensures id.Str? ==> r == id.s
    ensures id.Num? ==> IsDigits(r) && |r| >= 1
  {
    match id
    case Str(s) => s
    case Num(n) => NatToString(n)
  }

  /** One post as stored locally or remotely. Fields the code reads with `x || ""` are
      plain strings; `tags`, `featuredImage`, `status` and `user_id` may be missing. */
  datatype Post = Post(
    id: Id,
    title: string,
    content: string,
    category: string,
    publisherName: string,
    tags: Option<seq<string>>,
    excerpt: string,
    featuredImage: Option<string>,
    createdAt: string,
    status: Option<string>,
    userId: Option<string>)

  /** The two statuses the editor writes. */
  datatype Status = Published | Draft

  function StatusName(s: Status): (r: string)
    ensures r != "" && r != "all"
    ensures s.Published? <==> r == "published"
  {
    match s
    case Published => "published"
    case Draft => "draft"
  }

  /** The browser's localStorage entry "posts", already parsed: the fallback store. */
  class LocalStore {
    var posts: seq<Post>

    constructor (initial: seq<Post>)
      ensures posts == initial
    {
      posts := initial;
    }
  }

  /** Array.prototype.filter: the elements `keep` accepts, in their original order. */
  function Filter<T(==,!new)>(s: seq<T>, keep: T -> bool): (r: seq<T>)
    ensures |r| <= |s|
    ensures forall x :: x in r <==> x in s && keep(x)
  {
    if s == [] then [] else (if keep(s[0]) then [s[0]] else []) + Filter(s[1..], keep)
  }

  /** Filtering a concatenation filters each part and keeps them in order. */
  lemma {:induction false} FilterAppend<T(!new)>(a: seq<T>, b: seq<T>, keep: T -> bool)
    ensures Filter(a + b, keep) == Filter(a, keep) + Filter(b, keep)
  {
    if a != [] {
      assert (a + b)[0] == a[0];
      assert (a + b)[1..] == a[1..] + b;
      FilterAppend(a[1..], b, keep);
    } else {
      assert a + b == b;
    }
  }

  /** A list whose every element is kept comes back unchanged. */
  lemma {:induction false} FilterKeepsAll<T(!new)>(s: seq<T>, keep: T -> bool)
    requires forall i :: 0 <= i < |s| ==> keep(s[i])
    ensures Filter(s, keep) == s
  {
    if s != [] {
      FilterKeepsAll(s[1..], keep);
      HeadTail(s);
    }
  }

  /** Filtering twice with the same test is filtering once. */
  lemma FilterIdempotent<T(!new)>(s: seq<T>, keep: T -> bool)
    ensures Filter(Filter(s, keep), keep) == Filter(s, keep)
  {
    var r := Filter(s, keep);
    forall i | 0 <= i < |r| ensures keep(r[i]) {
      assert r[i] in r;
    }
    FilterKeepsAll(r, keep);
  }

  /** The length of a filtered list is the number of elements the test accepts. */
  function CountWhere<T>(s: seq<T>, keep: T -> bool): (n: nat)
    ensures n <= |s|
    ensures n == |s| <==> forall i :: 0 <= i < |s| ==> keep(s[i])
  {
    if s == [] then 0
    else
      var n := CountWhere(s[1..], keep);
      assert forall i :: 1 <= i < |s| ==> s[1..][i - 1] == s[i];
      (if keep(s[0]) then 1 else 0) + n
  }

  lemma {:induction false} CountWhereIsFilterLength<T(!new)>(s: seq<T>, keep: T -> bool)
    ensures CountWhere(s, keep) == |Filter(s, keep)|
  {
    if s != [] {
      CountWhereIsFilterLength(s[1..], keep);
    }
  }
}
