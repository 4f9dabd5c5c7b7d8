/** The build fingerprint: the build secrets are read, hashed and sorted by id before they go into
    the fingerprint, so that the order in which they were resolved should not matter.
 */
module BuildFingerprint {
  import opened StableSort
  import opened Text

  /** SHA-256 without collisions. */
  datatype Digest = Sha256(content: string)

  datatype Secret = Secret(id: string, source: string)

  datatype SecretFingerprint = SecretFingerprint(id: string, digest: Digest)

  datatype BuildKind =
    | Docker(context: string, dockerfile: string, target: string, imageRepository: string)
    | Systemd(buildCommand: string, setupCommand: Option<string>, buildOutputs: seq<string>, releaseRoot: string)

  /** Everything but the secrets. */
  datatype Contract = Contract(version: nat, deployerVersion: string, sourceAdapter: string, sourceIdentity: string,
                               contextFingerprint: string, policyVersion: string, configPath: string,
                               snapshot: string, kind: BuildKind)

  datatype Fingerprint = Fingerprint(contract: Contract, secrets: seq<SecretFingerprint>)

  // ---- Ordering by id ----

  /** The order of Rust strings: character by character, a prefix first. */
  predicate StringLeq(a: string, b: string) {
    a == [] || (b != [] && (a[0] < b[0] || (a[0] == b[0] && StringLeq(a[1..], b[1..]))))
  }

  /** It is the lexicographic order: a prefix, or smaller where they first differ. */
  lemma {:induction false} Lexicographic(a: string, b: string)
    ensures StringLeq(a, b) <==>
              a <= b || exists i :: 0 <= i < |a| && i < |b| && a[..i] == b[..i] && a[i] < b[i]
  {
    if a != [] && b != [] && a[0] == b[0] {
      Lexicographic(a[1..], b[1..]);
      FirstDifference(a, b);
      assert a == [a[0]] + a[1..] && b == [b[0]] + b[1..];
    } else if a != [] && b != [] {
      assert a[0] < b[0] ==> a[..0] == b[..0];
      forall i | 0 < i < |a| && i < |b| ensures a[..i] != b[..i] {
        assert a[..i][0] == a[0] && b[..i][0] == b[0];
      }
    }
  }

  lemma {:induction false} FirstDifference(a: string, b: string)
    requires a != [] && b != [] && a[0] == b[0]
    ensures (exists i :: 0 <= i < |a| && i < |b| && a[..i] == b[..i] && a[i] < b[i])
       <==> exists i :: 0 <= i < |a[1..]| && i < |b[1..]| && a[1..][..i] == b[1..][..i] && a[1..][i] < b[1..][i]
  {
    var s, t := a[1..], b[1..];
    if i :| 0 <= i < |a| && i < |b| && a[..i] == b[..i] && a[i] < b[i] {
      assert s[..i - 1] == a[..i][1..] == b[..i][1..] == t[..i - 1];
      assert s[i - 1] < t[i - 1];
    }
    if i :| 0 <= i < |s| && i < |t| && s[..i] == t[..i] && s[i] < t[i] {
      assert a[..i + 1] == [a[0]] + s[..i] && b[..i + 1] == [b[0]] + t[..i];
      assert a[i + 1] < b[i + 1];
    }
  }

  lemma {:induction false} StringLeqTotal(a: string, b: string)
    ensures StringLeq(a, b) || StringLeq(b, a)
    ensures StringLeq(a, b) && StringLeq(b, a) ==> a == b
  {
    if a != [] && b != [] && a[0] == b[0] {
      StringLeqTotal(a[1..], b[1..]);
      assert a == [a[0]] + a[1..] && b == [b[0]] + b[1..];
    }
  }

  lemma {:induction false} StringLeqTransitive(a: string, b: string, c: string)
    requires StringLeq(a, b) && StringLeq(b, c)
    ensures StringLeq(a, c)
  {
    if a != [] && a[0] == b[0] && b[0] == c[0] {
      StringLeqTransitive(a[1..], b[1..], c[1..]);
    }
  }

  const ById: (SecretFingerprint, SecretFingerprint) -> bool :=
    (a: SecretFingerprint, b: SecretFingerprint) => StringLeq(a.id, b.id)

  lemma {:induction false} SameId(a: SecretFingerprint, b: SecretFingerprint)
    ensures ById(a, b) && ById(b, a) <==> a.id == b.id
  {
    StringLeqTotal(a.id, b.id);
  }

  lemma {:induction false} ByIdOrders()
    ensures TotalPreorder(ById)
    ensures forall a, b :: ById(a, b) && ById(b, a) <==> a.id == b.id
  {
    forall a: SecretFingerprint, b: SecretFingerprint
      ensures ById(a, b) || ById(b, a)
      ensures ById(a, b) && ById(b, a) <==> a.id == b.id
    {
      StringLeqTotal(a.id, b.id);
    }
    forall a: SecretFingerprint, b: SecretFingerprint, c: SecretFingerprint | ById(a, b) && ById(b, c)
      ensures ById(a, c)
    {
      StringLeqTransitive(a.id, b.id, c.id);
    }
  }

  // ---- When the order of the secrets does not matter ----

  /** Equal ids come with equal contents. */
  ghost predicate Functional(s: seq<SecretFingerprint>) {
    forall a, b :: a in s && b in s && a.id == b.id ==> a == b
  }

  function Repeat(x: SecretFingerprint, n: nat): seq<SecretFingerprint> {
    if n == 0 then [] else [x] + Repeat(x, n - 1)
  }

  lemma {:induction false} CountFirst(s: seq<SecretFingerprint>, x: SecretFingerprint)
    requires s != []
    ensures multiset(s)[x] == multiset(s[1..])[x] + if s[0] == x then 1 else 0
  {
    assert s == [s[0]] + s[1..];
  }

  lemma {:induction false} ClassOfFunctional(s: seq<SecretFingerprint>, x: SecretFingerprint, y: SecretFingerprint)
    requires forall z :: z in s && z.id == y.id ==> z == x
    requires x.id == y.id
    ensures Class(ById, s, y) == Repeat(x, multiset(s)[x])
  {
    if s != [] {
      SameId(s[0], y);
      ClassOfFunctional(s[1..], x, y);
      CountFirst(s, x);
    }
  }

  lemma {:induction false} SameClass(s: seq<SecretFingerprint>, p: seq<SecretFingerprint>, y: SecretFingerprint)
    requires Functional(s) && multiset(p) == multiset(s)
    ensures Class(ById, p, y) == Class(ById, s, y)
  {
    forall z | z in p ensures z in s {
      assert z in multiset(p);
    }
    if x :| x in s && x.id == y.id {
      ClassOfFunctional(s, x, y);
      ClassOfFunctional(p, x, y);
    } else {
      forall z: SecretFingerprint ensures ById(z, y) && ById(y, z) <==> z.id == y.id {
        SameId(z, y);
      }
      ClassEmpty(ById, s, y);
      ClassEmpty(ById, p, y);
    }
  }

  lemma {:induction false} FunctionalSortsOneWay(s: seq<SecretFingerprint>, p: seq<SecretFingerprint>)
    requires Functional(s) && multiset(p) == multiset(s)
    ensures Sort(ById, p) == Sort(ById, s)
  {
    ByIdOrders();
    SortSorted(ById, s);
    SortSorted(ById, p);
    forall y ensures Class(ById, Sort(ById, p), y) == Class(ById, Sort(ById, s), y) {
      SortStable(ById, s, y);
      SortStable(ById, p, y);
      SameClass(s, p, y);
    }
    SortedUnique(ById, Sort(ById, p), Sort(ById, s));
  }

  function Swap(s: seq<SecretFingerprint>, i: nat, j: nat): seq<SecretFingerprint>
    requires i < j < |s|
  {
    s[..i] + [s[j]] + AfterSwap(s, i, j)
  }

  function AfterSwap(s: seq<SecretFingerprint>, i: nat, j: nat): seq<SecretFingerprint>
    requires i < j < |s|
  {
    s[i + 1..j] + [s[i]] + s[j + 1..]
  }

  lemma {:induction false} SwapPermutes(s: seq<SecretFingerprint>, i: nat, j: nat)
    requires i < j < |s|
    ensures multiset(Swap(s, i, j)) == multiset(s)
  {
    assert s == s[..i] + [s[i]] + s[i + 1..j] + [s[j]] + s[j + 1..];
  }

  lemma {:induction false} ClassAround(a: seq<SecretFingerprint>, x: SecretFingerprint, b: seq<SecretFingerprint>,
        y: SecretFingerprint)
    requires x.id == y.id
    ensures Class(ById, a + [x] + b, y) == Class(ById, a, y) + [x] + Class(ById, b, y)
  {
    SameId(x, y);
    ClassAppend(ById, a + [x], b, y);
    ClassAppend(ById, a, [x], y);
    assert [x][1..] == [];
  }

  lemma {:induction false} ClassesDiffer(a: seq<SecretFingerprint>, x: SecretFingerprint, b: seq<SecretFingerprint>,
                      x': SecretFingerprint, b': seq<SecretFingerprint>)
    requires x.id == x'.id && x != x'
    ensures Class(ById, a + [x] + b, x) != Class(ById, a + [x'] + b', x)
  {
    var before, after, after' := Class(ById, a, x), Class(ById, b, x), Class(ById, b', x);
    ClassAround(a, x, b, x);
    ClassAround(a, x', b', x);
    assert (before + [x] + after)[|before|] == x;
    assert (before + [x'] + after')[|before|] == x';
  }

  lemma {:induction false} Around(s: seq<SecretFingerprint>, i: nat)
    requires i < |s|
    ensures s == s[..i] + [s[i]] + s[i + 1..]
  {
  }

  /** After a swap of two entries of one class, the class reads differently. */
  lemma {:induction false} SwapChangesClass(s: seq<SecretFingerprint>, i: nat, j: nat)
    requires i < j < |s| && s[i].id == s[j].id && s[i] != s[j]
    ensures Class(ById, Swap(s, i, j), s[i]) != Class(ById, s, s[i])
  {
    Around(s, i);
    var a, b, b' := s[..i], s[i + 1..], AfterSwap(s, i, j);
    ClassesDiffer(a, s[i], b, s[j], b');
  }

  lemma {:induction false} SwapShows(s: seq<SecretFingerprint>, i: nat, j: nat)
    requires i < j < |s| && s[i].id == s[j].id && s[i] != s[j]
    ensures Sort(ById, Swap(s, i, j)) != Sort(ById, s)
  {
    SwapChangesClass(s, i, j);
    ByIdOrders();
    SortStable(ById, s, s[i]);
    SortStable(ById, Swap(s, i, j), s[i]);
  }

  ghost predicate OrderIrrelevant(s: seq<SecretFingerprint>) {
    forall p :: multiset(p) == multiset(s) ==> Sort(ById, p) == Sort(ById, s)
  }

  /** Every order of the secrets gives the same sorted list exactly when no id stands for two
      different contents. */
  lemma {:induction false} OrderIrrelevantIff(s: seq<SecretFingerprint>)
    ensures OrderIrrelevant(s) <==> Functional(s)
  {
    if Functional(s) {
      forall p | multiset(p) == multiset(s) ensures Sort(ById, p) == Sort(ById, s) {
        FunctionalSortsOneWay(s, p);
      }
    } else {
      var a, b :| a in s && b in s && a.id == b.id && a != b;
      var i :| 0 <= i < |s| && s[i] == a;
      var j :| 0 <= j < |s| && s[j] == b;
      var low, high := if i < j then i else j, if i < j then j else i;
      SwapPermutes(s, low, high);
      SwapShows(s, low, high);
    }
  }

  // ---- The program ----

  datatype Result = Unreadable(source: string) | Computed(digestOf: Fingerprint)

  function Hashes(secrets: seq<Secret>, files: map<string, string>): seq<SecretFingerprint>
    requires AllReadable(secrets, files)
  {
    if secrets == [] then []
    else [SecretFingerprint(secrets[0].id, Sha256(files[secrets[0].source]))] + Hashes(secrets[1..], files)
  }

  lemma {:induction false} HashesAppend(a: seq<Secret>, b: seq<Secret>, files: map<string, string>)
    requires AllReadable(a, files) && AllReadable(b, files)
    ensures Hashes(a + b, files) == Hashes(a, files) + Hashes(b, files)
  {
    if a == [] {
      assert a + b == b;
    } else {
      assert (a + b)[1..] == a[1..] + b;
      HashesAppend(a[1..], b, files);
    }
  }

  ghost predicate AllReadable(secrets: seq<Secret>, files: map<string, string>) {
    forall k :: 0 <= k < |secrets| ==> secrets[k].source in files
  }

  lemma {:induction false} HashesAround(a: seq<Secret>, x: Secret, b: seq<Secret>, files: map<string, string>)
    requires AllReadable(a, files) && AllReadable(b, files) && x.source in files
    ensures AllReadable(a + [x] + b, files)
    ensures multiset(Hashes(a + [x] + b, files))
         == multiset{SecretFingerprint(x.id, Sha256(files[x.source]))} + multiset(Hashes(a + b, files))
  {
    assert a + [x] + b == a + ([x] + b);
    HashesAppend(a, b, files);
    HashesAppend(a, [x] + b, files);
    assert ([x] + b)[1..] == b;
  }

  lemma {:induction false} TakeOut(p: seq<Secret>, x: Secret) returns (a: seq<Secret>, b: seq<Secret>)
    requires x in multiset(p)
    ensures p == a + [x] + b
    ensures multiset(p) == multiset(a + b) + multiset{x}
  {
    var i :| 0 <= i < |p| && p[i] == x;
    a, b := p[..i], p[i + 1..];
    assert p == a + [x] + b;
  }

  lemma {:induction false} CancelOne<T>(a: multiset<T>, b: multiset<T>, x: T)
    requires a + multiset{x} == multiset{x} + b
    ensures a == b
  {
    assert a == (a + multiset{x}) - multiset{x};
    assert b == (multiset{x} + b) - multiset{x};
  }

  /** Taking one element out of a permutation leaves a permutation of the rest. */
  lemma {:induction false} TakeFirst(s: seq<Secret>, p: seq<Secret>, files: map<string, string>)
      returns (a: seq<Secret>, b: seq<Secret>)
    requires s != [] && multiset(p) == multiset(s)
    requires AllReadable(p, files)
    ensures p == a + [s[0]] + b
    ensures multiset(a + b) == multiset(s[1..])
    ensures AllReadable(a, files) && AllReadable(b, files)
  {
    var x, rest := s[0], s[1..];
    assert s == [x] + rest;
    assert multiset(s) == multiset{x} + multiset(rest);
    a, b := TakeOut(p, x);
    CancelOne(multiset(a + b), multiset(rest), x);
    assert forall k :: 0 <= k < |a| ==> a[k] == p[k];
    assert forall k :: 0 <= k < |b| ==> b[k] == p[|a| + 1 + k];
  }

  lemma {:induction false} HashesPermute(s: seq<Secret>, p: seq<Secret>, files: map<string, string>)
    requires AllReadable(s, files) && AllReadable(p, files)
    requires multiset(p) == multiset(s)
    ensures multiset(Hashes(p, files)) == multiset(Hashes(s, files))
  {
    if s == [] {
      assert |p| == |multiset(p)| == |multiset(s)| == |s|;
    } else {
      var a, b := TakeFirst(s, p, files);
      HashesPermute(s[1..], a + b, files);
      HashesAround(a, s[0], b, files);
      assert s == [] + [s[0]] + s[1..] && [] + s[1..] == s[1..];
      HashesAround([], s[0], s[1..], files);
    }
  }

  lemma {:induction false} HashOf(secrets: seq<Secret>, files: map<string, string>, h: SecretFingerprint)
    requires AllReadable(secrets, files) && h in Hashes(secrets, files)
    ensures exists k :: 0 <= k < |secrets| && h == SecretFingerprint(secrets[k].id, Sha256(files[secrets[k].source]))
  {
    if h != Hashes(secrets, files)[0] {
      assert h in Hashes(secrets[1..], files);
      HashOf(secrets[1..], files, h);
      var rest := secrets[1..];
      var k :| 0 <= k < |rest| && h == SecretFingerprint(rest[k].id, Sha256(files[rest[k].source]));
      assert secrets[k + 1] == rest[k];
    }
  }

  /** Every secret has its entry, with its own id and the digest of its own file. */
  lemma {:induction false} HashesAt(secrets: seq<Secret>, files: map<string, string>)
    requires AllReadable(secrets, files)
    ensures var hashes := Hashes(secrets, files);
            |hashes| == |secrets| && forall k :: 0 <= k < |secrets| ==>
              hashes[k] == SecretFingerprint(secrets[k].id, Sha256(files[secrets[k].source]))
  {
    if secrets != [] {
      var rest := secrets[1..];
      HashesAt(rest, files);
      assert forall k :: 0 < k < |secrets| ==> secrets[k] == rest[k - 1];
    }
  }

  /** A secret that changes shows: equal fingerprints come from the same ids with the same contents. */
  lemma {:induction false} ChangedSecretShows(contract: Contract, contract': Contract, s: seq<Secret>, p: seq<Secret>,
        files: map<string, string>, files': map<string, string>)
    requires AllReadable(s, files) && AllReadable(p, files')
    requires Fingerprint(contract, Sort(ById, Hashes(s, files)))
          == Fingerprint(contract', Sort(ById, Hashes(p, files')))
    ensures contract == contract' && multiset(Hashes(s, files)) == multiset(Hashes(p, files'))
    ensures forall k :: 0 <= k < |s| ==>
              exists j :: 0 <= j < |p| && p[j].id == s[k].id && files'[p[j].source] == files[s[k].source]
  {
    ByIdOrders();
    SortSorted(ById, Hashes(s, files));
    SortSorted(ById, Hashes(p, files'));
    HashesAt(s, files);
    HashesAt(p, files');
    forall k | 0 <= k < |s|
      ensures exists j :: 0 <= j < |p| && p[j].id == s[k].id && files'[p[j].source] == files[s[k].source]
    {
      var h := Hashes(s, files)[k];
      assert h in multiset(Hashes(s, files));
      assert h in multiset(Hashes(p, files'));
      var j :| 0 <= j < |p| && Hashes(p, files')[j] == h;
    }
  }

  /** Secrets with distinct ids may be resolved in any order: with everything else the same, so is
      the fingerprint. */
  lemma {:induction false} SecretOrderIrrelevant(contract: Contract, s: seq<Secret>, p: seq<Secret>,
        files: map<string, string>)
    requires AllReadable(s, files) && AllReadable(p, files)
    requires multiset(p) == multiset(s)
    requires forall i, j :: 0 <= i < j < |s| ==> s[i].id != s[j].id
    ensures Fingerprint(contract, Sort(ById, Hashes(p, files))) == Fingerprint(contract, Sort(ById, Hashes(s, files)))
  {
    var hashes := Hashes(s, files);
    forall a, b | a in hashes && b in hashes && a.id == b.id ensures a == b {
      HashOf(s, files, a);
      HashOf(s, files, b);
    }
    HashesPermute(s, p, files);
    FunctionalSortsOneWay(hashes, Hashes(p, files));
  }

  method ComputeBuildFingerprint(contract: Contract, secrets: seq<Secret>, files: map<string, string>)
    returns (r: Result)
    ensures r.Computed? <==> AllReadable(secrets, files)
    ensures r.Computed? ==> r.digestOf == Fingerprint(contract, Sort(ById, Hashes(secrets, files)))
    ensures r.Unreadable? ==> exists k :: 0 <= k < |secrets| && secrets[k].source == r.source && r.source !in files
                                && forall j :: 0 <= j < k ==> secrets[j].source in files
  {
    var collected: seq<SecretFingerprint> := [];
    for i := 0 to |secrets|
      invariant forall k :: 0 <= k < i ==> secrets[k].source in files
      invariant collected == Hashes(secrets[..i], files)
    {
      var secret := secrets[i];
      if secret.source !in files {
        return Unreadable(secret.source);
      }
      assert secrets[..i + 1] == secrets[..i] + [secret];
      HashesAppend(secrets[..i], [secret], files);
      collected := collected + [SecretFingerprint(secret.id, Sha256(files[secret.source]))];
    }
    assert secrets[..|secrets|] == secrets;
    return Computed(Fingerprint(contract, Sort(ById, collected)));
  }
}
