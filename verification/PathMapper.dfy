/** Source-path identities: the separators, splitting and joining of paths, the
    two parsers, and the cache paths built from their results. */
module PathMapper {
  import opened Prelude
  import opened Text

  datatype PathIdentity = PathIdentity(root: string, relative: string)

  // ---------- strings ----------

  /** normalize_separators. */
  function Normalize(path: string): (r: string)
    ensures |r| == |path| && '/' !in r
    ensures forall i :: 0 <= i < |path| ==> r[i] == if path[i] == '/' then '\\' else path[i]
  {
    seq(|path|, i requires 0 <= i < |path| => if path[i] == '/' then '\\' else path[i])
  }

  function TrimLeading(s: string): string {
    if s != [] && s[0] == '\\' then TrimLeading(s[1..]) else s
  }

  function TrimTrailing(s: string): string {
    if s != [] && s[|s| - 1] == '\\' then TrimTrailing(s[..|s| - 1]) else s
  }

  predicate IsComponent(c: string) {
    c != [] && forall ch :: ch in c ==> !IsSeparator(ch)
  }

  ghost predicate Components(cs: seq<string>) {
    forall i :: 0 <= i < |cs| ==> IsComponent(cs[i])
  }

  /** Length of the leading run without a backslash. */
  function Run(s: string): (n: nat)
    ensures n <= |s| && '\\' !in s[..n] && (n < |s| ==> s[n] == '\\')
  {
    if s == [] || s[0] == '\\' then 0
    else
      assert s == [s[0]] + s[1..];
      1 + Run(s[1..])
  }

  /** The components of a normalized path. */
  function Split(s: string): seq<string>
    decreases |s|
  {
    if s == [] then []
    else if s[0] == '\\' then Split(s[1..])
    else [s[..Run(s)]] + Split(s[Run(s)..])
  }

  function Join(cs: seq<string>): string {
    if cs == [] then []
    else if |cs| == 1 then cs[0]
    else Join(cs[..|cs| - 1]) + "\\" + cs[|cs| - 1]
  }

  lemma {:induction false} RunIs(s: string, n: nat)
    requires n <= |s| && '\\' !in s[..n] && (n < |s| ==> s[n] == '\\')
    ensures Run(s) == n
  {
    if n > 0 {
      assert s[..n][0] == s[0];
      assert s[..n][1..] == s[1..][..n - 1];
      RunIs(s[1..], n - 1);
    }
  }

  lemma {:induction false} SplitOfConcat(a: string, b: string)
    requires b == [] || b[0] == '\\'
    ensures Split(a + b) == Split(a) + Split(b)
    decreases |a|
  {
    if a == [] {
      assert a + b == b;
    } else if a[0] == '\\' {
      assert (a + b)[1..] == a[1..] + b;
      SplitOfConcat(a[1..], b);
    } else {
      var n := Run(a);
      assert (a + b)[..n] == a[..n];
      RunIs(a + b, n);
      assert (a + b)[n..] == a[n..] + b;
      SplitOfConcat(a[n..], b);
    }
  }

  lemma SplitOfComponent(c: string)
    requires IsComponent(c)
    ensures Split(c) == [c]
  {
    EdgesOf(c);
    assert c[..|c|] == c && c[|c|..] == [];
    RunIs(c, |c|);
  }

  lemma SplitSlash(c: string)
    requires IsComponent(c)
    ensures Split("\\" + c) == [c]
  {
    assert ("\\" + c)[1..] == c;
    SplitOfComponent(c);
  }

  /** Splitting a joined list of components gives the list back. */
  lemma {:induction false} SplitInvertsJoin(cs: seq<string>)
    requires Components(cs)
    ensures Split(Join(cs)) == cs
  {
    hide Split;
    if cs == [] {
      NothingLeft("");
    } else if |cs| == 1 {
      SplitOfComponent(cs[0]);
    } else {
      var front, last := cs[..|cs| - 1], cs[|cs| - 1];
      SplitInvertsJoin(front);
      SplitSlash(last);
      SplitOfConcat(Join(front), "\\" + last);
      assert Join(cs) == Join(front) + ("\\" + last);
    }
  }

  lemma {:induction false} JoinedEdges(cs: seq<string>)
    requires Components(cs)
    ensures '/' !in Join(cs)
    ensures cs != [] ==> Join(cs) != [] && Join(cs)[0] != '\\' && Join(cs)[|Join(cs)| - 1] != '\\'
  {
    if |cs| > 0 {
      EdgesOf(cs[|cs| - 1]);
      if |cs| > 1 {
        JoinedEdges(cs[..|cs| - 1]);
      }
    }
  }

  lemma EdgesOf(c: string)
    requires IsComponent(c)
    ensures '/' !in c && '\\' !in c && c[0] != '\\' && c[|c| - 1] != '\\'
  {
    assert !IsSeparator(c[0]) && !IsSeparator(c[|c| - 1]);
    assert '/' in c ==> !IsSeparator('/');
    assert '\\' in c ==> !IsSeparator('\\');
  }

  lemma {:induction false} SplitGivesComponents(s: string)
    requires '/' !in s
    ensures Components(Split(s))
    decreases |s|
  {
    if s != [] {
      if s[0] == '\\' {
        SplitGivesComponents(s[1..]);
      } else {
        var n := Run(s);
        assert IsComponent(s[..n]);
        SplitGivesComponents(s[n..]);
      }
    }
  }

  lemma NormalizeKeepsPlain(s: string)
    requires '/' !in s
    ensures Normalize(s) == s
  {
    assert forall i :: 0 <= i < |s| ==> s[i] in s;
  }

  /** join_root_relative. */
  function JoinRootRelative(root: string, relative: string): string {
    var tail := TrimLeading(Normalize(relative));
    TrimTrailing(Normalize(root)) + if tail == [] then [] else "\\" + tail
  }

  // ---------- identities ----------

  predicate EqualsIgnoreCase(left: string, right: string) {
    LowerAll(left) == LowerAll(right)
  }

  function RootOf(server: string, share: string): string {
    LowerAll("\\\\" + server + "\\" + share)
  }

  function IdentityOf(cs: seq<string>): PathIdentity
    requires |cs| >= 2
  {
    PathIdentity(RootOf(cs[0], cs[1]), Join(cs[2..]))
  }

  predicate LeadsLikeUnc(path: string) {
    |path| >= 2 && IsSeparator(path[0]) && IsSeparator(path[1])
  }

  /** parse_unc_path. */
  function ParseUnc(path: string): Option<PathIdentity> {
    var cs := Split(Normalize(path));
    if !LeadsLikeUnc(path) || |cs| < 2 then None else Some(IdentityOf(cs))
  }

  predicate LeadsLikeDevice(cs: seq<string>) {
    && |cs| >= 4 && EqualsIgnoreCase(cs[0], "Device")
    && (EqualsIgnoreCase(cs[1], "LanManRedirector") || EqualsIgnoreCase(cs[1], "Mup"))
  }

  predicate StartsWithSemicolon(c: string) {
    c != [] && c[0] == ';'
  }

  /** parse_windows_remote_device_path. */
  function ParseDevice(path: string): Option<PathIdentity> {
    var cs := Split(Normalize(path));
    if !LeadsLikeDevice(cs) then None
    else
      var server := if StartsWithSemicolon(cs[2]) then 3 else 2;
      if |cs| <= server + 1 then None else Some(IdentityOf(cs[server..]))
  }

  /** map_observed_source_path. */
  function MapObserved(sourceUnc: string, observedPath: string): Option<PathIdentity> {
    var source := ParseUnc(sourceUnc);
    if source.None? then None
    else
      var unc := ParseUnc(observedPath);
      var observed := if unc.Some? then unc else ParseDevice(observedPath);
      if observed.None? || !EqualsIgnoreCase(observed.value.root, source.value.root) then None else observed
  }

  // ---------- what the parsers mean ----------

  lemma LowerComponent(c: string)
    requires IsComponent(c)
    ensures IsComponent(LowerAll(c))
  {
    forall ch | ch in LowerAll(c)
      ensures !IsSeparator(ch)
    {
      var i :| 0 <= i < |c| && LowerAll(c)[i] == ch;
      assert c[i] in c;
    }
  }

  /** A root is two lower-case components behind a double backslash. */
  lemma RootSplits(server: string, share: string)
    requires IsComponent(server) && IsComponent(share)
    ensures var root := RootOf(server, share);
            && Split(root) == [LowerAll(server), LowerAll(share)]
            && root == RootOf(LowerAll(server), LowerAll(share))
            && '/' !in root && |root| > 2 && root[0] == '\\' && root[1] == '\\' && root[|root| - 1] != '\\'
  {
    var s, t := LowerAll(server), LowerAll(share);
    LowerComponent(server);
    LowerComponent(share);
    LowerOfConcat("\\\\" + server + "\\", share);
    LowerOfConcat("\\\\" + server, "\\");
    LowerOfConcat("\\\\", server);
    assert RootOf(server, share) == "\\\\" + s + "\\" + t;
    LowerTwice(RootOf(server, share)[..]);
    LowerTwice("\\\\" + server + "\\" + share);
    assert RootOf(s, t) == LowerAll("\\\\" + s + "\\" + t);
    assert "\\\\" + s + "\\" + t == ("\\\\" + s) + ("\\" + t);
    SplitOfConcat("\\\\" + s, "\\" + t);
    SplitSlash(t);
    SplitSlash(s);
    assert ("\\\\" + s)[1..] == "\\" + s;
    EdgesOf(s);
    EdgesOf(t);
  }

  /** Different component lists have different identities, up to the case of
      server and share. */
  lemma IdentityIsExact(a: seq<string>, b: seq<string>)
    requires |a| >= 2 && |b| >= 2 && Components(a) && Components(b)
    ensures IdentityOf(a) == IdentityOf(b)
       <==> EqualsIgnoreCase(a[0], b[0]) && EqualsIgnoreCase(a[1], b[1]) && a[2..] == b[2..]
  {
    RootSplits(a[0], a[1]);
    RootSplits(b[0], b[1]);
    SplitInvertsJoin(a[2..]);
    SplitInvertsJoin(b[2..]);
    if IdentityOf(a) == IdentityOf(b) {
      assert [LowerAll(a[0]), LowerAll(a[1])] == [LowerAll(b[0]), LowerAll(b[1])];
    }
  }

  /** A relative path in the form the parsers return. */
  ghost predicate Canonical(relative: string) {
    exists cs :: Components(cs) && relative == Join(cs)
  }

  lemma IdentityFixedPoint(cs: seq<string>)
    requires |cs| >= 2 && Components(cs)
    ensures var id := IdentityOf(cs);
            && Canonical(id.relative)
            && ParseUnc(JoinRootRelative(id.root, id.relative)) == Some(id)
  {
    var id, rest := IdentityOf(cs), cs[2..];
    var server, share := LowerAll(cs[0]), LowerAll(cs[1]);
    RootSplits(cs[0], cs[1]);
    SplitInvertsJoin(rest);
    JoinedEdges(rest);
    NormalizeKeepsPlain(id.root);
    NormalizeKeepsPlain(id.relative);
    var joined := JoinRootRelative(id.root, id.relative);
    assert joined == id.root + if rest == [] then [] else "\\" + id.relative;
    if rest == [] {
      assert joined == id.root;
    } else {
      SplitOfConcat(id.root, "\\" + id.relative);
      assert ("\\" + id.relative)[1..] == id.relative;
    }
    assert Split(joined) == [server, share] + rest;
    assert ([server, share] + rest)[2..] == rest;
    NormalizeKeepsPlain(joined);
    assert joined[0] == id.root[0] && joined[1] == id.root[1];
  }

  /** Every identity a parser returns is a fixed point: joining its parts and
      parsing the result gives the same identity. */
  lemma ParsedIdentityIsFixedPoint(path: string)
    ensures ParseUnc(path).Some? ==>
              var id := ParseUnc(path).value;
              Canonical(id.relative) && ParseUnc(JoinRootRelative(id.root, id.relative)) == Some(id)
    ensures ParseDevice(path).Some? ==>
              var id := ParseDevice(path).value;
              Canonical(id.relative) && ParseUnc(JoinRootRelative(id.root, id.relative)) == Some(id)
  {
    hide IdentityOf, JoinRootRelative, Split, Canonical;
    var cs := Split(Normalize(path));
    SplitGivesComponents(Normalize(path));
    if ParseUnc(path).Some? {
      IdentityFixedPoint(cs);
    }
    if ParseDevice(path).Some? {
      IdentityFixedPoint(cs[if StartsWithSemicolon(cs[2]) then 3 else 2..]);
    }
  }

  /** A device path naming the components `cs`, with or without one extra
      component that starts with a semicolon; `lead` is the device prefix. */
  ghost predicate IsDeviceForm(path: string, lead: seq<string>, cs: seq<string>, mark: Option<string>) {
    && |lead| == 2 && |cs| >= 2 && Components(cs)
    && EqualsIgnoreCase(lead[0], "Device")
    && (EqualsIgnoreCase(lead[1], "LanManRedirector") || EqualsIgnoreCase(lead[1], "Mup"))
    && (mark.Some? ==> mark.value != [] && mark.value[0] == ';')
    && Split(Normalize(path)) == lead + (if mark.Some? then [mark.value] else []) + cs
  }

  /** The UNC form of a path and its device form have the same identity, however
      separators are written, exactly when the device form carries a semicolon
      component or the server name does not start with a semicolon. */
  lemma DeviceFormAgreesIff(unc: string, device: string, lead: seq<string>, cs: seq<string>, mark: Option<string>)
    requires LeadsLikeUnc(unc) && Split(Normalize(unc)) == cs && IsDeviceForm(device, lead, cs, mark)
    ensures ParseDevice(device) == ParseUnc(unc) <==> mark.Some? || cs[0][0] != ';'
  {
    hide Split, Normalize, IdentityOf, EqualsIgnoreCase;
    var ds := Split(Normalize(device));
    if mark.Some? {
      assert ds[3..] == cs && ds[2] == mark.value;
    } else {
      assert ds[2..] == cs && ds[2] == cs[0];
      if StartsWithSemicolon(cs[0]) {
        assert ds[3..] == cs[1..];
        if |cs| > 2 {
          assert Components(cs[1..]);
          IdentityIsExact(cs, cs[1..]);
          assert |cs[2..]| != |cs[1..][2..]|;
        }
      }
    }
  }

  /** What an observed path maps to lies under the configured source, and is what
      its UNC or its device reading says. */
  lemma MappedPathsShareTheSourceRoot(sourceUnc: string, observedPath: string)
    ensures MapObserved(sourceUnc, observedPath).Some? ==>
              var id := MapObserved(sourceUnc, observedPath).value;
              && ParseUnc(sourceUnc).Some? && id.root == ParseUnc(sourceUnc).value.root
              && ParseUnc(JoinRootRelative(id.root, id.relative)) == Some(id)
  {
    hide Split, JoinRootRelative;
    ParsedIdentityIsFixedPoint(observedPath);
    if MapObserved(sourceUnc, observedPath).Some? {
      RootIsLower(observedPath);
      RootIsLower(sourceUnc);
    }
  }

  lemma RootIsLower(path: string)
    ensures ParseUnc(path).Some? ==> LowerAll(ParseUnc(path).value.root) == ParseUnc(path).value.root
    ensures ParseDevice(path).Some? ==> LowerAll(ParseDevice(path).value.root) == ParseDevice(path).value.root
  {
    var cs := Split(Normalize(path));
    if |cs| >= 2 {
      LowerTwice("\\\\" + cs[0] + "\\" + cs[1]);
    }
    if ParseDevice(path).Some? {
      var ds := cs[if StartsWithSemicolon(cs[2]) then 3 else 2..];
      LowerTwice("\\\\" + ds[0] + "\\" + ds[1]);
    }
  }

  /** Mapping is the same for a UNC path and for its device form. */
  lemma MappingIgnoresTheForm(sourceUnc: string, unc: string, device: string, lead: seq<string>, cs: seq<string>, mark: Option<string>)
    requires LeadsLikeUnc(unc) && Split(Normalize(unc)) == cs && IsDeviceForm(device, lead, cs, mark)
    requires !LeadsLikeUnc(device) && (mark.Some? || cs[0][0] != ';')
    ensures MapObserved(sourceUnc, device) == MapObserved(sourceUnc, unc)
  {
    hide Split, Normalize, IdentityOf;
    DeviceFormAgreesIff(unc, device, lead, cs, mark);
  }

  // ---------- case decides nothing ----------

  function LowerEach(cs: seq<string>): (r: seq<string>)
    ensures |r| == |cs| && forall i :: 0 <= i < |cs| ==> r[i] == LowerAll(cs[i])
  {
    seq(|cs|, i requires 0 <= i < |cs| => LowerAll(cs[i]))
  }

  lemma {:induction false} SplitOfLower(s: string)
    ensures Split(LowerAll(s)) == LowerEach(Split(s))
    decreases |s|
  {
    var l := LowerAll(s);
    if s != [] {
      if s[0] == '\\' {
        assert l[1..] == LowerAll(s[1..]);
        SplitOfLower(s[1..]);
      } else {
        var n := Run(s);
        forall i | 0 <= i < n
          ensures l[i] != '\\'
        {
          assert s[i] == s[..n][i];
        }
        RunIs(l, n);
        assert l[..n] == LowerAll(s[..n]) && l[n..] == LowerAll(s[n..]);
        SplitOfLower(s[n..]);
      }
    }
  }

  lemma {:induction false} JoinOfLower(cs: seq<string>)
    ensures Join(LowerEach(cs)) == LowerAll(Join(cs))
  {
    if |cs| > 1 {
      var front := cs[..|cs| - 1];
      JoinOfLower(front);
      assert LowerEach(cs)[..|cs| - 1] == LowerEach(front);
      LowerOfConcat(Join(front) + "\\", cs[|cs| - 1]);
      LowerOfConcat(Join(front), "\\");
    }
  }

  lemma IdentityOfLower(cs: seq<string>)
    requires |cs| >= 2
    ensures IdentityOf(LowerEach(cs)) == PathIdentity(IdentityOf(cs).root, LowerAll(IdentityOf(cs).relative))
  {
    JoinOfLower(cs[2..]);
    assert LowerEach(cs)[2..] == LowerEach(cs[2..]);
    assert RootOf(LowerAll(cs[0]), LowerAll(cs[1])) == RootOf(cs[0], cs[1]);
  }

  /** The identity with its relative path in small letters. */
  function LowerIdentity(id: Option<PathIdentity>): Option<PathIdentity> {
    match id case None => None case Some(x) => Some(PathIdentity(x.root, LowerAll(x.relative)))
  }

  lemma ComponentsOfLower(path: string)
    ensures Split(Normalize(LowerAll(path))) == LowerEach(Split(Normalize(path)))
    ensures LeadsLikeUnc(LowerAll(path)) <==> LeadsLikeUnc(path)
  {
    assert Normalize(LowerAll(path)) == LowerAll(Normalize(path));
    SplitOfLower(Normalize(path));
  }

  lemma DeviceLeadOfLower(cs: seq<string>)
    ensures LeadsLikeDevice(LowerEach(cs)) <==> LeadsLikeDevice(cs)
    ensures |cs| >= 3 ==> (StartsWithSemicolon(LowerEach(cs)[2]) <==> StartsWithSemicolon(cs[2]))
  {
    if |cs| >= 4 {
      LowerTwice(cs[0]);
      LowerTwice(cs[1]);
    }
    hide LowerAll;
  }

  lemma ParsersOfLower(path: string)
    ensures ParseUnc(LowerAll(path)) == LowerIdentity(ParseUnc(path))
    ensures ParseDevice(LowerAll(path)) == LowerIdentity(ParseDevice(path))
  {
    ComponentsOfLower(path);
    hide Split, Normalize, IdentityOf, LeadsLikeUnc, LeadsLikeDevice, StartsWithSemicolon, LowerAll;
    var cs := Split(Normalize(path));
    DeviceLeadOfLower(cs);
    if |cs| >= 2 {
      IdentityOfLower(cs);
    }
    if LeadsLikeDevice(cs) {
      DeviceLeadIsLong(cs);
      var server := if StartsWithSemicolon(cs[2]) then 3 else 2;
      assert LowerEach(cs)[server..] == LowerEach(cs[server..]);
      if |cs| > server + 1 {
        IdentityOfLower(cs[server..]);
      }
    }
  }

  lemma DeviceLeadIsLong(cs: seq<string>)
    requires LeadsLikeDevice(cs)
    ensures |cs| >= 4
  {
  }

  /** Both give nothing, or the same root and a relative path of the same letters. */
  predicate SameButCase(a: Option<PathIdentity>, b: Option<PathIdentity>) {
    (a.Some? <==> b.Some?) && (a.Some? && b.Some? ==> a.value.root == b.value.root && Recased(a.value.relative, b.value.relative))
  }

  lemma LowerIdentitySame(a: Option<PathIdentity>, b: Option<PathIdentity>)
    requires LowerIdentity(a) == LowerIdentity(b)
    ensures SameButCase(a, b)
  {
    if a.Some? {
      RecasedIff(a.value.relative, b.value.relative);
    }
  }

  /** Writing letters of a path in the other case changes neither what the parsers
      accept nor the root they find. */
  lemma ParsersIgnoreCase(a: string, b: string)
    requires Recased(a, b)
    ensures SameButCase(ParseUnc(a), ParseUnc(b)) && SameButCase(ParseDevice(a), ParseDevice(b))
  {
    hide *;
    RecasedIff(a, b);
    ParsersOfLower(a);
    ParsersOfLower(b);
    LowerIdentitySame(ParseUnc(a), ParseUnc(b));
    LowerIdentitySame(ParseDevice(a), ParseDevice(b));
  }

  lemma MappingIgnoresCase(source: string, observed: string, source': string, observed': string)
    requires Recased(source, source') && Recased(observed, observed')
    ensures SameButCase(MapObserved(source, observed), MapObserved(source', observed'))
  {
    hide ParseUnc, ParseDevice, Recased, EqualsIgnoreCase;
    ParsersIgnoreCase(source, source');
    ParsersIgnoreCase(observed, observed');
  }

  // ---------- what maps, exactly ----------

  /** The path reads as the UNC name of these components. */
  ghost predicate IsUncForm(path: string, cs: seq<string>) {
    |path| >= 2 && path[0] in "\\/" && path[1] in "\\/" && Split(Normalize(path)) == cs && |cs| >= 2
  }

  /** The path names these components: as a UNC path or, if it is none, as a device
      path. A third device component that starts with a semicolon is no server. */
  ghost predicate Names(path: string, cs: seq<string>) {
    || IsUncForm(path, cs)
    || ((forall us :: !IsUncForm(path, us))
        && exists lead, mark :: IsDeviceForm(path, lead, cs, mark) && (mark.Some? || cs[0][0] != ';'))
  }

  lemma UncReads(path: string)
    ensures ParseUnc(path).Some? <==> IsUncForm(path, Split(Normalize(path)))
    ensures forall cs :: IsUncForm(path, cs) ==> ParseUnc(path) == Some(IdentityOf(cs))
  {
  }

  lemma DeviceReads(path: string, lead: seq<string>, cs: seq<string>, mark: Option<string>)
    requires IsDeviceForm(path, lead, cs, mark) && (mark.Some? || cs[0][0] != ';')
    ensures ParseDevice(path) == Some(IdentityOf(cs))
  {
    hide Split, Normalize, IdentityOf, EqualsIgnoreCase;
    var ds := Split(Normalize(path));
    if mark.Some? {
      assert ds[3..] == cs && ds[2] == mark.value;
    } else {
      assert ds[2..] == cs && ds[2] == cs[0];
    }
  }

  lemma DeviceFormOf(path: string) returns (lead: seq<string>, cs: seq<string>, mark: Option<string>)
    requires ParseDevice(path).Some?
    ensures IsDeviceForm(path, lead, cs, mark) && (mark.Some? || cs[0][0] != ';')
  {
    SplitGivesComponents(Normalize(path));
    hide Split, Normalize, IdentityOf, EqualsIgnoreCase, IsComponent;
    var ds := Split(Normalize(path));
    lead := ds[..2];
    if StartsWithSemicolon(ds[2]) {
      mark, cs := Some(ds[2]), ds[3..];
      assert ds == lead + [ds[2]] + cs;
    } else {
      mark, cs := None, ds[2..];
      assert ds == lead + [] + cs;
    }
  }

  /** An observed path maps exactly when its server and share are the source's up
      to case, and then to the identity of its own components. */
  lemma MapsExactly(sourceUnc: string, observedPath: string, ss: seq<string>, cs: seq<string>)
    requires IsUncForm(sourceUnc, ss) && Names(observedPath, cs)
    ensures MapObserved(sourceUnc, observedPath)
         == if Recased(cs[0], ss[0]) && Recased(cs[1], ss[1]) then Some(IdentityOf(cs)) else None
  {
    hide Split, Normalize, IdentityOf, Recased;
    UncReads(sourceUnc);
    UncReads(observedPath);
    if !IsUncForm(observedPath, cs) {
      var lead, mark :| IsDeviceForm(observedPath, lead, cs, mark) && (mark.Some? || cs[0][0] != ';');
      DeviceReads(observedPath, lead, cs, mark);
    }
    SplitGivesComponents(Normalize(sourceUnc));
    SplitGivesComponents(Normalize(observedPath));
    RootsAgreeIff(cs, ss);
    RecasedIff(cs[0], ss[0]);
    RecasedIff(cs[1], ss[1]);
  }

  lemma RootsAgreeIff(a: seq<string>, b: seq<string>)
    requires |a| >= 2 && |b| >= 2 && Components(a) && Components(b)
    ensures EqualsIgnoreCase(IdentityOf(a).root, IdentityOf(b).root) <==> EqualsIgnoreCase(a[0], b[0]) && EqualsIgnoreCase(a[1], b[1])
  {
    RootSplits(a[0], a[1]);
    RootSplits(b[0], b[1]);
    hide Split, Join;
    LowerTwice("\\\\" + a[0] + "\\" + a[1]);
    LowerTwice("\\\\" + b[0] + "\\" + b[1]);
    if RootOf(a[0], a[1]) == RootOf(b[0], b[1]) {
      assert [LowerAll(a[0]), LowerAll(a[1])] == [LowerAll(b[0]), LowerAll(b[1])];
    }
  }

  /** A source that is no UNC path, or an observed path that is neither a UNC nor a
      device path, maps to nothing. */
  lemma NothingElseMaps(sourceUnc: string, observedPath: string)
    requires (forall ss :: !IsUncForm(sourceUnc, ss)) || (forall cs :: !Names(observedPath, cs))
    ensures MapObserved(sourceUnc, observedPath) == None
  {
    hide IdentityOf, IsDeviceForm, ParseUnc, ParseDevice, EqualsIgnoreCase;
    UncReads(sourceUnc);
    UncReads(observedPath);
    if ParseUnc(observedPath).None? && ParseDevice(observedPath).Some? {
      var lead, cs, mark := DeviceFormOf(observedPath);
      assert Names(observedPath, cs);
    }
    if ParseUnc(observedPath).Some? {
      assert Names(observedPath, Split(Normalize(observedPath)));
    }
  }

  // ---------- keys and cache paths ----------

  /** Two keys name the same path under a root exactly when they are the same up
      to separator style and leading separators. */
  lemma JoinedPathsCollideIff(root: string, a: string, b: string)
    ensures JoinRootRelative(root, a) == JoinRootRelative(root, b)
       <==> TrimLeading(Normalize(a)) == TrimLeading(Normalize(b))
  {
    hide TrimLeading, TrimTrailing, Normalize;
    SameTail(TrimTrailing(Normalize(root)), TrimLeading(Normalize(a)), TrimLeading(Normalize(b)));
  }

  function Separators(n: nat): (r: string)
    ensures |r| == n && forall i :: 0 <= i < n ==> r[i] == '\\'
  {
    seq(n, i => '\\')
  }

  lemma {:induction false} TrimTrailingIs(base: string, n: nat)
    requires base == [] || base[|base| - 1] != '\\'
    ensures TrimTrailing(base + Separators(n)) == base
  {
    var s := base + Separators(n);
    if n == 0 {
      assert s == base;
    } else {
      assert s[..|s| - 1] == base + Separators(n - 1);
      TrimTrailingIs(base, n - 1);
    }
  }

  lemma {:induction false} TrimLeadingIs(n: nat, tail: string)
    requires tail == [] || tail[0] != '\\'
    ensures TrimLeading(Separators(n) + tail) == tail
  {
    var s := Separators(n) + tail;
    if n == 0 {
      assert s == tail;
    } else {
      assert s[1..] == Separators(n - 1) + tail;
      TrimLeadingIs(n - 1, tail);
    }
  }

  /** However many separators the root ends and the relative path begins with, one
      joins them, and none follows a root that stands alone. */
  lemma JoinsWithOneSeparator(root: string, relative: string, base: string, n: nat, m: nat, tail: string)
    requires Normalize(root) == base + Separators(n) && (base == [] || base[|base| - 1] != '\\')
    requires Normalize(relative) == Separators(m) + tail && (tail == [] || tail[0] != '\\')
    ensures JoinRootRelative(root, relative) == if tail == [] then base else base + "\\" + tail
  {
    hide Normalize, TrimTrailing, TrimLeading;
    TrimTrailingIs(base, n);
    TrimLeadingIs(m, tail);
    assert tail != [] ==> base + "\\" + tail == base + ("\\" + tail);
  }

  lemma SameTail(base: string, a: string, b: string)
    ensures base + (if a == [] then [] else "\\" + a) == base + (if b == [] then [] else "\\" + b) <==> a == b
  {
    var x, y := base + (if a == [] then [] else "\\" + a), base + (if b == [] then [] else "\\" + b);
    assert a != [] ==> x[|base| + 1..] == a;
    assert b != [] ==> y[|base| + 1..] == b;
    assert |x| == |base| + if a == [] then 0 else 1 + |a|;
    assert |y| == |base| + if b == [] then 0 else 1 + |b|;
  }

  lemma CanonicalIsTrimmed(relative: string)
    requires Canonical(relative)
    ensures TrimLeading(Normalize(relative)) == relative
  {
    var cs :| Components(cs) && relative == Join(cs);
    JoinedEdges(cs);
    NormalizeKeepsPlain(relative);
  }

  /** Distinct index keys name distinct cache paths. */
  lemma KeysDoNotCollide(root: string, a: string, b: string)
    requires Canonical(a) && Canonical(b) && a != b
    ensures JoinRootRelative(root, a) != JoinRootRelative(root, b)
  {
    CanonicalIsTrimmed(a);
    CanonicalIsTrimmed(b);
    JoinedPathsCollideIff(root, a, b);
  }

  /** A key's temporary file is the cache file of another key exactly when that
      key is the first one with the temporary suffix appended. */
  lemma TempCollidesIff(root: string, a: string, b: string, suffix: string)
    requires Canonical(a) && Canonical(b) && a != [] && IsComponent(suffix)
    ensures JoinRootRelative(root, b) == JoinRootRelative(root, a) + suffix <==> b == a + suffix
  {
    CanonicalIsTrimmed(a);
    CanonicalIsTrimmed(b);
    var base := TrimTrailing(Normalize(root));
    var x, y := JoinRootRelative(root, a), JoinRootRelative(root, b);
    assert x == base + ("\\" + a);
    assert y == base + if b == [] then [] else "\\" + b;
    AppendedTail(base, a, b, suffix);
  }

  lemma AppendedTail(base: string, a: string, b: string, suffix: string)
    requires suffix != []
    ensures base + (if b == [] then [] else "\\" + b) == base + ("\\" + a) + suffix <==> b == a + suffix
  {
    var x, y := base + (if b == [] then [] else "\\" + b), base + ("\\" + a) + suffix;
    assert y == base + ("\\" + (a + suffix));
    assert y[|base| + 1..] == a + suffix;
    assert b != [] ==> x[|base| + 1..] == b;
    assert |y| == |base| + 1 + |a| + |suffix|;
  }

  // ---------- the loops ----------

  /** equals_ignore_case. */
  method SameIgnoringCase(left: string, right: string) returns (same: bool)
    ensures same == EqualsIgnoreCase(left, right) == Recased(left, right)
  {
    RecasedIff(left, right);
    if |left| != |right| {
      assert |LowerAll(left)| != |LowerAll(right)|;
      return false;
    }
    var index := 0;
    while index < |left|
      invariant 0 <= index <= |left| && forall k :: 0 <= k < index ==> Lower(left[k]) == Lower(right[k])
    {
      if Lower(left[index]) != Lower(right[index]) {
        assert LowerAll(left)[index] != LowerAll(right)[index];
        return false;
      }
      index := index + 1;
    }
    assert LowerAll(left) == LowerAll(right);
    return true;
  }

  /** trim_leading_separators. */
  method TrimLeadingSeparators(path: string) returns (trimmed: string)
    ensures trimmed == TrimLeading(Normalize(path))
    ensures trimmed == [] || trimmed[0] != '\\'
  {
    trimmed := Normalize(path);
    while trimmed != [] && trimmed[0] == '\\'
      invariant TrimLeading(trimmed) == TrimLeading(Normalize(path))
      decreases |trimmed|
    {
      trimmed := trimmed[1..];
    }
  }

  /** split_path_components. */
  method SplitPathComponents(path: string) returns (components: seq<string>)
    ensures components == Split(Normalize(path)) && Components(components)
  {
    hide Split, Normalize, Components;
    components := [];
    var normalized := Normalize(path);
    SplitGivesComponents(normalized);
    var start := 0;
    assert normalized[0..] == normalized;
    while start < |normalized|
      invariant 0 <= start <= |normalized|
      invariant components + Split(normalized[start..]) == Split(normalized)
    {
      ghost var before := start;
      while start < |normalized| && normalized[start] == '\\'
        invariant before <= start <= |normalized|
        invariant Split(normalized[start..]) == Split(normalized[before..])
      {
        SkipSeparator(normalized, start);
        start := start + 1;
      }
      var end := start;
      while end < |normalized| && normalized[end] != '\\'
        invariant start <= end <= |normalized| && '\\' !in normalized[start..end]
      {
        end := end + 1;
      }
      if end > start {
        NextComponent(normalized, start, end);
        components := components + [normalized[start..end]];
      }
      start := end;
    }
    NothingLeft(normalized);
  }

  lemma NothingLeft(s: string)
    ensures Split(s[|s|..]) == []
  {
  }

  lemma SkipSeparator(s: string, start: nat)
    requires start < |s| && s[start] == '\\'
    ensures Split(s[start..]) == Split(s[start + 1..])
  {
    assert s[start..][1..] == s[start + 1..];
  }

  lemma NextComponent(s: string, start: nat, end: nat)
    requires start < end <= |s| && '\\' !in s[start..end] && (end < |s| ==> s[end] == '\\')
    ensures Split(s[start..]) == [s[start..end]] + Split(s[end..])
  {
    var rest, n := s[start..], end - start;
    assert rest[..n] == s[start..end];
    assert rest[0] == s[start] && s[start] == s[start..end][0];
    RunIs(rest, n);
    assert rest[n..] == s[end..];
  }

  /** join_root_relative. */
  method JoinRootAndRelative(root: string, relativePath: string) returns (result: string)
    ensures result == JoinRootRelative(root, relativePath)
  {
    result := Normalize(root);
    var relative := TrimLeadingSeparators(relativePath);
    while result != [] && result[|result| - 1] == '\\'
      invariant TrimTrailing(result) == TrimTrailing(Normalize(root))
      decreases |result|
    {
      result := result[..|result| - 1];
    }
    if relative != [] {
      result := result + ['\\'];
      result := result + relative;
    }
  }

  /** The loop both parsers end with. */
  method JoinFrom(components: seq<string>, first: nat) returns (relative: string)
    requires Components(components) && first <= |components|
    ensures relative == Join(components[first..])
  {
    relative := [];
    var index := first;
    while index < |components|
      invariant first <= index <= |components| && relative == Join(components[first..index])
    {
      assert Components(components[first..index]);
      JoinedEdges(components[first..index]);
      assert components[first..index + 1][..index - first] == components[first..index];
      if relative != [] {
        relative := relative + ['\\'];
      }
      relative := relative + components[index];
      index := index + 1;
    }
    assert components[first..index] == components[first..];
  }

  method ParseUncPath(path: string) returns (identity: Option<PathIdentity>)
    ensures identity == ParseUnc(path)
  {
    hide Split, Join, Components;
    var normalized := Normalize(path);
    if |normalized| < 2 || normalized[..2] != "\\\\" {
      return None;
    }
    NormalizeKeepsPlain(normalized);
    var components := SplitPathComponents(normalized);
    if |components| < 2 {
      return None;
    }
    var root := "\\\\" + components[0] + "\\" + components[1];
    var relative := JoinFrom(components, 2);
    return Some(PathIdentity(LowerAll(root), relative));
  }

  method ParseWindowsRemoteDevicePath(path: string) returns (identity: Option<PathIdentity>)
    ensures identity == ParseDevice(path)
  {
    hide Split, Join, Components, EqualsIgnoreCase, Normalize;
    var components := SplitPathComponents(path);
    if |components| < 4 {
      return None;
    }
    var device := SameIgnoringCase(components[0], "Device");
    if !device {
      return None;
    }
    var redirector := SameIgnoringCase(components[1], "LanManRedirector");
    var mup := SameIgnoringCase(components[1], "Mup");
    if !redirector && !mup {
      return None;
    }
    var serverIndex := 2;
    if StartsWithSemicolon(components[serverIndex]) {
      serverIndex := serverIndex + 1;
    }
    if |components| <= serverIndex + 1 {
      return None;
    }
    var root := "\\\\" + components[serverIndex] + "\\" + components[serverIndex + 1];
    var relative := JoinFrom(components, serverIndex + 2);
    assert components[serverIndex..][2..] == components[serverIndex + 2..];
    return Some(PathIdentity(LowerAll(root), relative));
  }

  method MapObservedSourcePath(sourceUnc: string, observedPath: string) returns (identity: Option<PathIdentity>)
    ensures identity == MapObserved(sourceUnc, observedPath)
  {
    hide ParseUnc, ParseDevice, EqualsIgnoreCase;
    var source := ParseUncPath(sourceUnc);
    if source.None? {
      return None;
    }
    var observed := ParseUncPath(observedPath);
    if observed.None? {
      observed := ParseWindowsRemoteDevicePath(observedPath);
    }
    if observed.None? {
      return None;
    }
    var same := SameIgnoringCase(observed.value.root, source.value.root);
    if !same {
      return None;
    }
    return observed;
  }
}
