/** The price-relay provider endpoints: where the candidate list comes from,
    which candidates a ban list excludes, and the round-robin hand-out of the
    remaining ones. The repository is a record; every operation returns the
    updated record. */
module ProvidersRepository {
  import opened Wrappers
  import opened JavaStrings

  /** DEFAULT_NODES in declaration order (the constructor shuffles it). */
  const DefaultNodes: seq<string> := [
    "18.179.40.172:8333", "18.208.61.185:8333", "31.220.56.195:8333", "35.220.226.25:8333",
    "35.227.56.27:8333", "37.48.83.207:8333", "38.87.54.163:8334", "38.143.66.14:8333",
    "47.89.180.57:8333", "47.93.174.61:8333", "47.98.224.31:28333", "47.147.194.165:8333",
    "47.254.42.16:8333", "50.225.198.67:6628", "52.243.44.176:8333", "52.246.166.192:8333",
    "54.95.31.146:8333", "54.210.151.7:8333", "60.191.106.150:8333", "60.249.215.221:8333",
    "62.42.138.162:8333", "63.143.32.126:8433", "66.96.199.249:8333", "67.239.3.146:8333",
    "73.76.218.50:8333", "78.97.206.149:8333", "81.237.206.224:8353", "82.75.64.15:8333",
    "82.200.205.30:8331", "83.172.69.154:8333", "84.112.174.5:8222", "88.99.48.7:9090",
    "89.179.247.236:8333", "91.148.141.242:8333", "92.206.113.127:8333", "94.199.178.17:8022",
    "94.247.134.76:8333", "95.79.35.133:7333", "95.172.230.70:8333", "100.1.209.114:8333",
    "100.11.124.171:8333", "104.238.131.116:8333", "107.175.46.159:8334", "107.191.117.175:8333",
    "109.70.144.105:8333", "109.134.181.120:8334", "111.90.145.37:8334", "113.10.152.126:8333",
    "128.199.138.39:8333", "141.239.183.148:8333", "142.68.56.141:8333", "144.76.102.2:8333",
    "146.90.44.252:8333", "148.70.154.102:8333", "158.69.84.33:8333", "162.213.252.3:8333",
    "162.242.168.36:8333", "162.242.168.55:8333", "163.172.142.149:10020", "172.96.161.245:8333",
    "172.249.77.148:8333", "173.82.103.250:8333", "173.212.202.187:8335", "173.214.244.102:8333",
    "173.224.240.45:8333", "178.128.118.37:8333", "179.218.80.242:8333", "188.134.90.224:8333",
    "188.214.30.3:8333", "188.241.58.206:8333", "190.2.140.16:8333", "193.169.244.189:8333",
    "194.14.246.205:8444", "194.14.247.116:8333", "195.122.150.173:8333", "195.154.168.129:8333",
    "198.27.68.86:8333", "198.204.229.34:8333", "204.44.118.195:8333", "212.107.44.171:10333",
    "213.165.68.218:8333", "213.227.140.194:8333", "216.218.235.93:8333"
  ]

  /** The single clearnet provider used in localhost mode. */
  const LocalhostProvider: string := "http://127.0.0.1/"

  datatype Repository = Repository(
    /** The `providers` program argument; `None` when it is null. */
    providersFromProgramArgs: Option<string>,
    useLocalhostForP2P: bool,
    /** DEFAULT_NODES in the order the shuffle left it. */
    defaultNodes: seq<string>,
    providerList: seq<string>,
    baseUrl: string,
    /** `None` when the ban list is null. */
    bannedNodes: Option<seq<string>>,
    index: nat)

  /** The form in which a provider is looked up in the ban list: every
      "http://", then every "/", then every ".onion" removed. */
  function Normalize(e: string): (r: string)
    ensures |r| <= |e|
    ensures '/' !in r
  {
    var noScheme := RemoveAll(e, "http://");
    RemoveAllChar(noScheme, '/');
    RemoveAll(RemoveAll(noScheme, "/"), ".onion")
  }

  /** A bracketed onion URL normalises to its bare host name. */
  lemma NormalizeOnionUrl()
    ensures Normalize("http://abc.onion/") == "abc"
  {
    var a, b, c := "http://abc.onion/", "abc.onion/", "abc.onion";
    StripScheme();
    StripSlash();
    StripOnion();
    calc {
      Normalize(a);
      RemoveAll(RemoveAll(RemoveAll(a, "http://"), "/"), ".onion");
      RemoveAll(RemoveAll(b, "/"), ".onion");
      RemoveAll(c, ".onion");
    }
  }

  lemma StripScheme()
    ensures RemoveAll("http://abc.onion/", "http://") == "abc.onion/"
  {
    var a, b := "http://abc.onion/", "abc.onion/";
    assert a[..7] == "http://" && a[7..] == b;
    forall j: nat
      ensures !OccursAt(b, "http://", j)
    {
      if j + 7 <= |b| {
        assert b[j..j + 7][0] == b[j] != 'h';
      }
    }
    RemoveAllAbsent(b, "http://");
  }

  lemma StripSlash()
    ensures RemoveAll("abc.onion/", "/") == "abc.onion"
  {
    var c := "abc.onion";
    assert '/' !in c;
    assert c + ['/'] == "abc.onion/";
    RemoveAllChar(c + ['/'], '/');
    DeleteCharAppend(c, '/', '/');
    DeleteCharAbsent(c, '/');
  }

  lemma StripOnion()
    ensures RemoveAll("abc.onion", ".onion") == "abc"
  {
    var c := "abc.onion";
    assert c[..6][0] != '.';
    assert c[1..][..6][0] != '.';
    assert c[1..][1..][..6][0] != '.';
    assert c[1..][1..][1..] == ".onion";
    assert RemoveAll(".onion", ".onion") == "" by {
      assert ".onion"[6..] == "";
    }
  }

  /** Whether the ban list excludes provider `e`; a null list excludes nothing. */
  predicate IsBanned(e: string, bannedNodes: Option<seq<string>>)
  {
    bannedNodes.Some? && Normalize(e) in bannedNodes.value
  }

  /** `a` is `b` with some elements left out and the rest in their order. */
  predicate IsSubsequence<T(==)>(a: seq<T>, b: seq<T>)
    decreases |b|
  {
    |a| == 0 || (|b| > 0 && ((a[0] == b[0] && IsSubsequence(a[1..], b[1..])) || IsSubsequence(a, b[1..])))
  }

  /** The candidate list before filtering: the program argument with all
      whitespace deleted, split on commas; or, with no argument, the localhost
      provider in localhost mode and the default nodes otherwise. */
  function SourceList(providersFromProgramArgs: Option<string>, useLocalhostForP2P: bool, defaultNodes: seq<string>): (r: seq<string>)
    ensures (providersFromProgramArgs.None? || providersFromProgramArgs.value == "") ==>
      r == (if useLocalhostForP2P then [LocalhostProvider] else defaultNodes)
    ensures providersFromProgramArgs.Some? && providersFromProgramArgs.value != "" ==>
      var arg := DeleteWhitespace(providersFromProgramArgs.value);
      && (forall k :: 0 <= k < |r| ==> ',' !in r[k] && forall c :: c in r[k] ==> !IsWhitespace(c))
      && CommaPadded(arg, Join(r))
      // An argument of only whitespace yields one empty provider; otherwise
      // trailing empty pieces are dropped.
      && (arg == "" ==> r == [""])
      && (arg != "" ==> |r| == 0 || r[|r| - 1] != "")
  {
    if providersFromProgramArgs.None? || providersFromProgramArgs.value == "" then
      if useLocalhostForP2P then [LocalhostProvider] else defaultNodes
    else
      var arg := DeleteWhitespace(providersFromProgramArgs.value);
      SplitRoundTrip(arg);
      SplitPiecesFromString(arg);
      Split(arg)
  }

  /** Every character of a piece of `split(",")` comes from the split string. */
  lemma SplitPiecesFromString(s: string)
    ensures forall k, c :: 0 <= k < |Split(s)| && c in Split(s)[k] ==> c in s
  {
    var r := Split(s);
    SplitRoundTrip(s);
    forall k, c | 0 <= k < |r| && c in r[k]
      ensures c in s
    {
      JoinContainsPiece(r, k);
    }
  }

  lemma {:induction false} JoinContainsPiece(pieces: seq<string>, k: nat)
    requires k < |pieces|
    ensures forall c :: c in pieces[k] ==> c in Join(pieces)
    decreases |pieces|
  {
    if |pieces| > 1 && k > 0 {
      JoinContainsPiece(pieces[1..], k - 1);
    }
  }

  /** The stream filter: keeps, in order, exactly the candidates the ban list
      does not exclude. */
  function FilterBanned(source: seq<string>, bannedNodes: Option<seq<string>>): (r: seq<string>)
    ensures bannedNodes.None? ==> r == source
    ensures IsSubsequence(r, source)
    ensures forall e :: e in r <==> e in source && !IsBanned(e, bannedNodes)
    ensures forall e :: multiset(r)[e] == if IsBanned(e, bannedNodes) then 0 else multiset(source)[e]
  {
    if source == [] then []
    else
      var rest := FilterBanned(source[1..], bannedNodes);
      assert source == [source[0]] + source[1..];
      if IsBanned(source[0], bannedNodes) then rest else [source[0]] + rest
  }

  /** fillProviderList: only the provider list changes, to the candidates the
      current ban list does not exclude. */
  function FillProviderList(repo: Repository): (r: Repository)
    ensures r == repo.(providerList := r.providerList)
    ensures IsSubsequence(r.providerList, SourceList(repo.providersFromProgramArgs, repo.useLocalhostForP2P, repo.defaultNodes))
    ensures forall k :: 0 <= k < |r.providerList| ==> !IsBanned(r.providerList[k], repo.bannedNodes)
    ensures forall e :: e in SourceList(repo.providersFromProgramArgs, repo.useLocalhostForP2P, repo.defaultNodes) && !IsBanned(e, repo.bannedNodes) ==> e in r.providerList
    // Each kept candidate is kept as often as the source lists it, and a
    // null ban list keeps the source list as it is.
    ensures forall e :: multiset(r.providerList)[e] ==
                          (if IsBanned(e, repo.bannedNodes) then 0
                           else multiset(SourceList(repo.providersFromProgramArgs, repo.useLocalhostForP2P, repo.defaultNodes))[e])
    ensures repo.bannedNodes.None? ==> r.providerList == SourceList(repo.providersFromProgramArgs, repo.useLocalhostForP2P, repo.defaultNodes)
  {
    var source := SourceList(repo.providersFromProgramArgs, repo.useLocalhostForP2P, repo.defaultNodes);
    repo.(providerList := FilterBanned(source, repo.bannedNodes))
  }

  /** The position the next selection reads: a stale index past the end wraps to 0. */
  function Start(repo: Repository): nat
  {
    if repo.index >= |repo.providerList| then 0 else repo.index
  }

  /** selectNextProviderBaseUrl: hands out the provider at the (wrapped)
      index and advances the index; with no providers the base URL becomes
      empty and the index stays. */
  function SelectNextProviderBaseUrl(repo: Repository): (r: Repository)
    ensures r == repo.(baseUrl := r.baseUrl, index := r.index)
    ensures |repo.providerList| > 0 ==>
      && 1 <= r.index <= |repo.providerList|
      && r.baseUrl == repo.providerList[r.index - 1]
      && r.index == (if repo.index >= |repo.providerList| then 1 else repo.index + 1)
    ensures |repo.providerList| == 0 ==> r.baseUrl == "" && r.index == repo.index
  {
    if |repo.providerList| > 0 then
      var i := Start(repo);
      repo.(baseUrl := repo.providerList[i], index := i + 1)
    else
      repo.(baseUrl := "")
  }

  /** applyBannedNodes: records the ban list, rebuilds the provider list and
      selects once. The index is not reset: it continues where it was, or
      wraps to the first provider when the rebuilt list is shorter. */
  function ApplyBannedNodes(repo: Repository, bannedNodes: Option<seq<string>>): (r: Repository)
    ensures r.bannedNodes == bannedNodes
    ensures r.providersFromProgramArgs == repo.providersFromProgramArgs
      && r.useLocalhostForP2P == repo.useLocalhostForP2P && r.defaultNodes == repo.defaultNodes
    ensures r.providerList == FilterBanned(SourceList(repo.providersFromProgramArgs, repo.useLocalhostForP2P, repo.defaultNodes), bannedNodes)
    ensures |r.providerList| > 0 ==> r.baseUrl in r.providerList && !IsBanned(r.baseUrl, bannedNodes)
    ensures |r.providerList| == 0 ==> r.baseUrl == "" && r.index == repo.index
    ensures 0 < |r.providerList| <= repo.index ==> r.baseUrl == r.providerList[0] && r.index == 1
    ensures repo.index < |r.providerList| ==> r.baseUrl == r.providerList[repo.index] && r.index == repo.index + 1
  {
    var filled := FillProviderList(repo.(bannedNodes := bannedNodes));
    SelectNextProviderBaseUrl(filled)
  }

  /** The constructor: index 0, empty base URL, then the ban list applied.
      The default nodes arrive already shuffled: the random order is a
      parameter. */
  function Create(providersFromProgramArgs: Option<string>, useLocalhostForP2P: bool,
                  shuffledDefaultNodes: seq<string>, bannedNodes: Option<seq<string>>): (r: Repository)
    ensures r.providerList == FilterBanned(SourceList(providersFromProgramArgs, useLocalhostForP2P, shuffledDefaultNodes), bannedNodes)
    ensures |r.providerList| > 0 ==> r.baseUrl == r.providerList[0] && r.index == 1
    ensures |r.providerList| == 0 ==> r.baseUrl == "" && r.index == 0
  {
    ApplyBannedNodes(Repository(providersFromProgramArgs, useLocalhostForP2P, shuffledDefaultNodes, [], "", None, 0), bannedNodes)
  }

  /** Whatever order the shuffle picks, without an argument and outside
      localhost mode the providers are the default nodes the ban list does
      not exclude, each as often as it is declared. */
  lemma CreateFromDefaults(shuffledDefaultNodes: seq<string>, bannedNodes: Option<seq<string>>)
    requires multiset(shuffledDefaultNodes) == multiset(DefaultNodes)
    ensures forall e :: multiset(Create(None, false, shuffledDefaultNodes, bannedNodes).providerList)[e]
                        == if IsBanned(e, bannedNodes) then 0 else multiset(DefaultNodes)[e]
  {
    CreateFromPermutation(DefaultNodes, shuffledDefaultNodes, bannedNodes);
  }

  lemma CreateFromPermutation(defaults: seq<string>, shuffled: seq<string>, bannedNodes: Option<seq<string>>)
    requires multiset(shuffled) == multiset(defaults)
    ensures forall e :: multiset(Create(None, false, shuffled, bannedNodes).providerList)[e]
                        == if IsBanned(e, bannedNodes) then 0 else multiset(defaults)[e]
  {
  }

  /** `k` consecutive selections. */
  function SelectTimes(repo: Repository, k: nat): (r: Repository)
    ensures r.providerList == repo.providerList
    ensures k == 0 || |repo.providerList| == 0 || 1 <= r.index <= |repo.providerList|
  {
    if k == 0 then repo else SelectNextProviderBaseUrl(SelectTimes(repo, k - 1))
  }

  /** The base URLs handed out by `k` consecutive selections. */
  function Handed(repo: Repository, k: nat): (r: seq<string>)
    ensures |r| == k
  {
    if k == 0 then [] else Handed(repo, k - 1) + [SelectTimes(repo, k).baseUrl]
  }

  /** Euclidean division has one quotient and one remainder. */
  lemma ModUnique(x: nat, n: nat, q: int, m: int)
    requires n > 0 && 0 <= m < n && x == q * n + m
    ensures x % n == m
  {
    var q', m' := x / n, x % n;
    assert (q - q') * n == m' - m;
    if q - q' >= 1 {
      MulAtLeast(q - q', n);
    } else if q' - q >= 1 {
      MulAtLeast(q' - q, n);
    }
  }

  lemma MulAtLeast(d: int, n: nat)
    requires d >= 1
    ensures d * n >= n
  {
  }

  lemma ModSucc(x: nat, n: nat)
    requires n > 0
    ensures (if x % n + 1 >= n then 0 else x % n + 1) == (x + 1) % n
  {
    var q, m := x / n, x % n;
    if m + 1 == n {
      ModUnique(x + 1, n, q + 1, 0);
    } else {
      ModUnique(x + 1, n, q, m + 1);
    }
  }

  /** The position the (k+1)-th selection reads, stepping one place per
      selection and wrapping at the end of the list. */
  function Position(start: nat, k: nat, n: nat): (p: nat)
    requires start < n
    ensures p < n
  {
    if k == 0 then start
    else var prev := Position(start, k - 1, n); if prev + 1 >= n then 0 else prev + 1
  }

  lemma {:induction false} PositionIsMod(start: nat, k: nat, n: nat)
    requires start < n
    ensures Position(start, k, n) == (start + k) % n
  {
    if k == 0 {
      ModUnique(start, n, 0, start);
    } else {
      PositionIsMod(start, k - 1, n);
      ModSucc(start + k - 1, n);
    }
  }

  lemma {:induction false} SelectTimesPosition(repo: Repository, k: nat)
    requires |repo.providerList| > 0
    ensures var p := Position(Start(repo), k, |repo.providerList|);
      && SelectTimes(repo, k + 1).baseUrl == repo.providerList[p]
      && SelectTimes(repo, k + 1).index == p + 1
  {
    if k > 0 {
      SelectTimesPosition(repo, k - 1);
    }
  }

  /** Round robin: the (k+1)-th selection hands out the provider k places
      after the starting position, wrapping around the list. */
  lemma RoundRobin(repo: Repository, k: nat)
    requires |repo.providerList| > 0
    ensures var n := |repo.providerList|;
      && SelectTimes(repo, k + 1).baseUrl == repo.providerList[(Start(repo) + k) % n]
      && SelectTimes(repo, k + 1).index == (Start(repo) + k) % n + 1
  {
    SelectTimesPosition(repo, k);
    PositionIsMod(Start(repo), k, |repo.providerList|);
  }

  /** From a fresh or wrapped index, n selections hand out the n providers
      once each, in list order. */
  lemma VisitsEachOnce(repo: Repository)
    requires |repo.providerList| > 0
    requires repo.index == 0 || repo.index >= |repo.providerList|
    ensures Handed(repo, |repo.providerList|) == repo.providerList
  {
    var n := |repo.providerList|;
    forall j | 0 <= j < n
      ensures Handed(repo, n)[j] == repo.providerList[j]
    {
      HandedAt(repo, n, j);
      FirstPass(repo, j);
    }
  }

  /** Within the first pass from position 0 the (j+1)-th selection hands out
      provider j. */
  lemma {:induction false} FirstPass(repo: Repository, j: nat)
    requires j < |repo.providerList|
    requires repo.index == 0 || repo.index >= |repo.providerList|
    ensures SelectTimes(repo, j + 1).baseUrl == repo.providerList[j]
    ensures SelectTimes(repo, j + 1).index == j + 1
  {
    if j > 0 {
      FirstPass(repo, j - 1);
    }
  }

  lemma {:induction false} HandedAt(repo: Repository, k: nat, j: nat)
    requires j < k
    ensures Handed(repo, k)[j] == SelectTimes(repo, j + 1).baseUrl
  {
    if j < k - 1 {
      HandedAt(repo, k - 1, j);
    }
  }

  /** With every candidate banned, selecting never fails: it keeps handing
      out the empty base URL. */
  lemma {:induction false} EmptySelection(repo: Repository, k: nat)
    requires |repo.providerList| == 0
    requires k > 0
    ensures SelectTimes(repo, k).baseUrl == "" && SelectTimes(repo, k).index == repo.index
  {
    if k > 1 {
      EmptySelection(repo, k - 1);
    }
  }
}
