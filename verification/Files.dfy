/** Reading a file for its digest, and choosing a free name in the downloads folder. */
module Files {
  import opened Bytes
  import opened Payloads

  const MAX_BUFFER_SIZE := 32768

  /** SHA-256 of section 6.2 of FIPS 180-4; nothing below depends on which function it is. */
  type Hash = Text -> Digest

  function Min(a: nat, b: nat): nat { if a < b then a else b }

  /** The digest loop of both peers: `file.read` until a read falls short. The context absorbs
      exactly the bytes of the file, each once and in order. */
  method HashFile(sha: Hash, content: Text) returns (digest: Digest)
    ensures digest == sha(content)
  {
    var absorbed: Text := [];
    var position, good := 0, true;
    while good
      invariant 0 <= position <= |content| && absorbed == content[..position]
      invariant !good ==> position == |content|
      decreases |content| - position + if good then 1 else 0
    {
      var bytesRead := Min(MAX_BUFFER_SIZE, |content| - position);
      var shaBuffer := content[position..position + bytesRead];
      position := position + bytesRead;
      good := bytesRead == MAX_BUFFER_SIZE;
      if bytesRead > 0 {
        absorbed := absorbed + shaBuffer;
      }
    }
    assert content[..position] == content;
    digest := sha(absorbed);
  }

  // ------------------------------------------------------------------ file names

  const DOT: Byte := 0x2E

  /** Index of the last dot of `s[..n]`. */
  function LastDot(s: Text, n: nat): (r: Option<nat>)
    requires n <= |s|
    ensures r.Some? ==> r.value < n && s[r.value] == DOT && DOT !in s[r.value + 1..n]
    ensures r.None? ==> DOT !in s[..n]
  {
    if n == 0 then None
    else if s[n - 1] == DOT then Some(n - 1)
    else LastDot(s, n - 1)
  }

  /** Where the extension begins: at the last dot, unless that dot leads the name or the name
      is `..`; then there is no extension. */
  function ExtensionStart(name: Text): (r: nat)
    ensures r <= |name|
  {
    match LastDot(name, |name|)
    case None => |name|
    case Some(i) => if i == 0 || name == [DOT, DOT] then |name| else i
  }

  function Stem(name: Text): Text { name[..ExtensionStart(name)] }

  function Extension(name: Text): Text { name[ExtensionStart(name)..] }

  /** The decimal digits of a counter. */
  function Decimal(n: nat): (r: Text)
    ensures r != []
  {
    if n < 10 then [0x30 + n] else Decimal(n / 10) + [0x30 + n % 10]
  }

  function DecimalValue(s: Text): int {
    if s == [] then 0 else 10 * DecimalValue(s[..|s| - 1]) + s[|s| - 1] - 0x30
  }

  lemma {:induction false} DecimalRoundTrip(n: nat)
    ensures DecimalValue(Decimal(n)) == n
  {
    var s := Decimal(n);
    if n >= 10 {
      DecimalRoundTrip(n / 10);
      assert s[..|s| - 1] == Decimal(n / 10);
    } else {
      assert s[..|s| - 1] == [];
      assert DecimalValue(s) == 10 * DecimalValue([]) + n;
    }
  }

  /** The name with the number in parentheses, after a space, between stem and extension. */
  function Numbered(name: Text, k: nat): Text {
    Stem(name) + [0x20, 0x28] + Decimal(k) + [0x29] + Extension(name)
  }

  lemma NumberedInjective(name: Text, j: nat, k: nat)
    requires Numbered(name, j) == Numbered(name, k)
    ensures j == k
  {
    var s := Numbered(name, j);
    var a, b := |Stem(name)| + 2, |s| - |Extension(name)| - 1;
    assert s[a..b] == Decimal(j);
    assert s[a..b] == Decimal(k);
    DecimalRoundTrip(j);
    DecimalRoundTrip(k);
  }

  lemma NumberedIsLonger(name: Text, k: nat)
    ensures |Numbered(name, k)| > |name|
  {
  }

  /** A numbered name begins with the stem of the name and ends with its extension; in between stand a
      space and the number in parentheses. */
  lemma NumberedShape(name: Text, k: nat)
    ensures Stem(name) + Extension(name) == name
    ensures var s, a := Numbered(name, k), |Stem(name)|;
            var b := |s| - |Extension(name)|;
            && a + 3 < b && s[..a] == Stem(name) && s[b..] == Extension(name)
            && s[a] == ' ' as int && s[a + 1] == '(' as int && s[b - 1] == ')' as int
            && DecimalValue(s[a + 2..b - 1]) == k
            && forall i :: a + 2 <= i < b - 1 ==> '0' as int <= s[i] <= '9' as int
  {
    var s, a := Numbered(name, k), |Stem(name)|;
    var b := |s| - |Extension(name)|;
    assert s[a + 2..b - 1] == Decimal(k);
    DecimalRoundTrip(k);
    DecimalDigits(k);
  }

  lemma {:induction false} DecimalDigits(n: nat)
    ensures forall i :: 0 <= i < |Decimal(n)| ==> '0' as int <= Decimal(n)[i] <= '9' as int
  {
    if n < 10 {
    } else {
      DecimalDigits(n / 10);
    }
  }

  /** A suffix that has no further dot does not move the last dot. */
  lemma {:induction false} LastDotBefore(s: Text, i: nat, n: nat)
    requires i < n <= |s| && s[i] == DOT && forall m :: i < m < n ==> s[m] != DOT
    ensures LastDot(s, n) == Some(i)
  {
    if n == i + 1 {
    } else {
      LastDotBefore(s, i, n - 1);
    }
  }

  /** The number brings no dot. */
  lemma NumberHasNoDot(name: Text, k: nat)
    ensures var s := Numbered(name, k);
            var a, b := |Stem(name)|, |s| - |Extension(name)|;
            && 0 <= a < b && s[..a] == name[..a] && s[b..] == name[a..] && |s| > 2
            && forall m :: a <= m < b ==> s[m] != DOT
  {
    hide Numbered, Decimal;
    NumberedShape(name, k);
  }

  /** Text without dots put in front of the extension moves the extension along, unless the name is two
      dots. */
  lemma InsertMovesExtension(name: Text, s: Text, b: nat)
    requires var a := ExtensionStart(name);
             && a < b && |s| == b + |name| - a && |s| > 2
             && (forall m :: 0 <= m < a ==> s[m] == name[m]) && (forall m :: a <= m < b ==> s[m] != DOT)
             && forall m :: b <= m < |s| ==> s[m] == name[a + m - b]
    ensures ExtensionStart(s) == b <==> name != [DOT, DOT]
  {
    hide LastDot;
    var n := |name|;
    match LastDot(name, n)
    case None =>
      assert forall m :: 0 <= m < n ==> name[m] == name[..n][m];
      assert name != [] ==> name[0] != DOT;
      NoDot(s);
    case Some(i) =>
      forall m | i < m < n ensures name[m] != DOT {
        assert name[m] == name[i + 1..n][m - i - 1];
      }
      LastDotBefore(s, if ExtensionStart(name) == n then i else b, |s|);
      assert name == [DOT, DOT] ==> name[1] == DOT && i == 1;
  }

  /** A numbered name has the extension of the name, unless the name is two dots. */
  lemma NumberedKeepsExtension(name: Text, k: nat)
    ensures ExtensionStart(Numbered(name, k)) == |Numbered(name, k)| - |Extension(name)| <==> name != [DOT, DOT]
    ensures Extension(Numbered(name, k)) == Extension(name) <==> name != [DOT, DOT]
  {
    hide Numbered, ExtensionStart;
    var s := Numbered(name, k);
    var a, b := |Stem(name)|, |s| - |Extension(name)|;
    NumberHasNoDot(name, k);
    forall m | b <= m < |s| ensures s[m] == name[a + m - b] {
      assert s[m] == s[b..][m - b];
    }
    forall m | 0 <= m < a ensures s[m] == name[m] {
      assert s[m] == s[..a][m];
    }
    InsertMovesExtension(name, s, b);
  }

  lemma NoDot(s: Text)
    requires forall m :: 0 <= m < |s| ==> s[m] != DOT
    ensures LastDot(s, |s|).None?
  {
  }

  /** The original name and its first `k - 1` numbered variants. */
  function Tried(name: Text, k: nat): set<Text>
    requires k >= 1
  {
    if k == 1 then {name} else Tried(name, k - 1) + {Numbered(name, k - 1)}
  }

  lemma {:induction false} TriedMembers(name: Text, k: nat, s: Text)
    requires k >= 1
    ensures s in Tried(name, k) <==> s == name || exists j :: 1 <= j < k && s == Numbered(name, j)
  {
    if k == 1 {
    } else {
      TriedMembers(name, k - 1, s);
      if s == Numbered(name, k - 1) {
      }
    }
  }

  /** All candidates are different. */
  lemma {:induction false} TriedSize(name: Text, k: nat)
    requires k >= 1
    ensures |Tried(name, k)| == k
  {
    if k == 1 {
    } else {
      hide Numbered;
      TriedSize(name, k - 1);
      var next := Numbered(name, k - 1);
      if next in Tried(name, k - 1) {
        TriedMembers(name, k - 1, next);
        NumberedIsLonger(name, k - 1);
        var j :| 1 <= j < k - 1 && next == Numbered(name, j);
        NumberedInjective(name, j, k - 1);
      }
    }
  }

  lemma SubsetSize<T>(a: set<T>, b: set<T>)
    requires a <= b
    ensures |a| <= |b|
  {
    assert b == a + (b - a);
  }

  /** Pigeonhole: a folder of `n` entries cannot hold more than `n` of the candidates. */
  lemma Pigeonhole(files: set<Text>, name: Text, k: nat)
    requires k >= 1 && Tried(name, k) <= files
    ensures k <= |files|
  {
    TriedSize(name, k);
    SubsetSize(Tried(name, k), files);
  }

  /** The least number from `k` on whose variant is free. */
  function FirstFree(files: set<Text>, name: Text, k: nat): (r: nat)
    requires k >= 1 && Tried(name, k) <= files
    ensures k <= r <= |files|
    ensures Numbered(name, r) !in files
    ensures forall j :: k <= j < r ==> Numbered(name, j) in files
    decreases |files| - k
  {
    Pigeonhole(files, name, k);
    if Numbered(name, k) !in files then k else
      assert Tried(name, k + 1) <= files;
      Pigeonhole(files, name, k + 1);
      FirstFree(files, name, k + 1)
  }

  /** The name that `resolveFilePath` picks. */
  function ResolvedName(files: set<Text>, name: Text): (r: Text)
    ensures r !in files && (name !in files ==> r == name)
    ensures name in files ==>
              exists c :: 1 <= c <= |files| && r == Numbered(name, c) && forall j :: 1 <= j < c ==> Numbered(name, j) in files
  {
    if name !in files then name else Numbered(name, FirstFree(files, name, 1))
  }

  /** The original name if it is free, else the least free numbered one, found within as many
      probes as the folder has entries. */
  method ResolveFilePath(files: set<Text>, name: Text) returns (candidate: Text, counter: nat)
    ensures candidate !in files
    ensures name !in files ==> candidate == name
    ensures name in files ==>
              && counter >= 2 && candidate == Numbered(name, counter - 1)
              && (forall j :: 1 <= j < counter - 1 ==> Numbered(name, j) in files)
              && counter - 1 <= |files|
    ensures candidate == ResolvedName(files, name)
  {
    hide Numbered;
    candidate, counter := name, 1;
    if candidate !in files {
      return;
    }
    while candidate in files
      invariant counter >= 1
      invariant candidate == if counter == 1 then name else Numbered(name, counter - 1)
      invariant candidate in files ==> Tried(name, counter) <= files
      invariant counter >= 2 ==> Tried(name, counter - 1) <= files
      invariant counter - 1 <= |files|
      invariant forall j :: 1 <= j < counter - 1 ==> Numbered(name, j) in files
      decreases |files| + 1 - counter
    {
      Pigeonhole(files, name, counter);
      candidate := Numbered(name, counter);
      counter := counter + 1;
    }
    assert counter - 1 == FirstFree(files, name, 1);
  }
}
