/**
  Slicing a documentation index: the claims of every document are grouped by section, every
  group becomes a numbered slice with a packet, and a coverage matrix says which slices own
  which claim.
 */
module DocSlices {
  import opened PyText

  datatype Kind = DocumentClaim | SectionClaim | OtherClaim

  datatype Claim = Claim(id: string, documentPath: string, kind: Kind, heading: string)

  datatype Document = Document(path: string)

  datatype DocSlice = DocSlice(
    id: string,
    storyId: string,
    sourceDocument: string,
    sections: seq<string>,
    stableClaimIds: seq<string>,
    coverageId: string
  )

  datatype Packet = Packet(id: string, docSliceId: string, storyId: string, coverageRefs: seq<string>)

  type Matrix = map<string, seq<string>>

  datatype Payload = Payload(slices: seq<DocSlice>, packets: seq<Packet>, coverageMatrix: Matrix, uncovered: seq<string>)

  // ------------------------------------------------------- section groups

  function OfKind(claims: seq<Claim>, documents: bool): (picked: seq<Claim>)
    ensures forall c :: c in picked <==> c in claims && (c.kind == DocumentClaim) == documents
  {
    if claims == [] then [] else
      var n := |claims| - 1;
      var earlier := OfKind(claims[..n], documents);
      assert claims == claims[..n] + [claims[n]];
      if (claims[n].kind == DocumentClaim) == documents then earlier + [claims[n]] else earlier
  }

  /** One turn of the grouping loop; the document claims lead every group. */
  function AddClaim(leading: seq<Claim>, groups: seq<seq<Claim>>, claim: Claim): seq<seq<Claim>> {
    if claim.kind == DocumentClaim then groups
    else if claim.kind == SectionClaim || groups == [] then groups + [leading + [claim]]
    else groups[..|groups| - 1] + [groups[|groups| - 1] + [claim]]
  }

  function GroupsFrom(leading: seq<Claim>, claims: seq<Claim>): seq<seq<Claim>> {
    if claims == [] then [] else
      AddClaim(leading, GroupsFrom(leading, claims[..|claims| - 1]), claims[|claims| - 1])
  }

  function SectionClaimGroups(claims: seq<Claim>): seq<seq<Claim>> {
    var leading := OfKind(claims, true);
    var groups := GroupsFrom(leading, claims);
    if groups != [] then groups else if leading != [] then [leading] else []
  }

  method GroupSectionClaims(claims: seq<Claim>) returns (groups: seq<seq<Claim>>)
    ensures groups == SectionClaimGroups(claims)
  {
    var leading := OfKind(claims, true);
    groups := [];
    for i := 0 to |claims|
      invariant groups == GroupsFrom(leading, claims[..i])
    {
      var claim := claims[i];
      assert claims[..i + 1][..i] == claims[..i];
      if claim.kind == DocumentClaim {
        continue;
      }
      if claim.kind == SectionClaim || groups == [] {
        groups := groups + [leading + [claim]];
      } else {
        groups := groups[|groups| - 1 := groups[|groups| - 1] + [claim]];
      }
    }
    assert claims[..|claims|] == claims;
    if groups == [] && leading != [] {
      groups := [leading];
    }
  }

  /** The groups without the leading claims, one after the other. */
  function Tails(skip: nat, groups: seq<seq<Claim>>): seq<Claim> {
    if groups == [] then [] else
      var n := |groups| - 1;
      Tails(skip, groups[..n]) + if skip <= |groups[n]| then groups[n][skip..] else []
  }

  predicate Leads(leading: seq<Claim>, groups: seq<seq<Claim>>) {
    forall g :: 0 <= g < |groups| ==> leading < groups[g]
  }

  lemma TailsSnoc(skip: nat, groups: seq<seq<Claim>>, g: seq<Claim>)
    requires skip <= |g|
    ensures Tails(skip, groups + [g]) == Tails(skip, groups) + g[skip..]
  {
    assert (groups + [g])[..|groups|] == groups;
  }

  lemma AddClaimConserves(leading: seq<Claim>, groups: seq<seq<Claim>>, claim: Claim)
    requires Leads(leading, groups)
    ensures Leads(leading, AddClaim(leading, groups, claim))
    ensures Tails(|leading|, AddClaim(leading, groups, claim)) ==
      Tails(|leading|, groups) + if claim.kind == DocumentClaim then [] else [claim]
  {
    hide Tails;
    if claim.kind == SectionClaim || (claim.kind != DocumentClaim && groups == []) {
      TailsSnoc(|leading|, groups, leading + [claim]);
    } else if claim.kind != DocumentClaim {
      var n := |groups| - 1;
      assert groups == groups[..n] + [groups[n]];
      TailsSnoc(|leading|, groups[..n], groups[n]);
      TailsSnoc(|leading|, groups[..n], groups[n] + [claim]);
      assert (groups[n] + [claim])[|leading|..] == groups[n][|leading|..] + [claim];
    }
  }

  lemma {:induction false} GroupsConserve(leading: seq<Claim>, claims: seq<Claim>)
    ensures Leads(leading, GroupsFrom(leading, claims))
    ensures Tails(|leading|, GroupsFrom(leading, claims)) == OfKind(claims, false)
  {
    hide AddClaim;
    if claims != [] {
      var n := |claims| - 1;
      GroupsConserve(leading, claims[..n]);
      AddClaimConserves(leading, GroupsFrom(leading, claims[..n]), claims[n]);
    }
  }

  /** Every group leads with the document claims; what follows them, over all groups, is the rest of the claims in order. */
  lemma ClaimsConserved(claims: seq<Claim>)
    ensures var leading := OfKind(claims, true);
      var groups := SectionClaimGroups(claims);
      && (forall g :: 0 <= g < |groups| ==> leading <= groups[g])
      && Tails(|leading|, groups) == OfKind(claims, false)
      && (groups == [] <==> claims == [])
  {
    var leading := OfKind(claims, true);
    GroupsConserve(leading, claims);
    if GroupsFrom(leading, claims) == [] {
      assert claims != [] ==> claims[0] in claims;
      if leading != [] {
        assert SectionClaimGroups(claims)[..0] == [];
        assert leading[|leading|..] == [];
      }
    }
  }

  /** Where a claim of the extended groups comes from. */
  lemma AddedAt(leading: seq<Claim>, groups: seq<seq<Claim>>, claim: Claim, g: nat, k: nat)
    requires Leads(leading, groups)
    requires g < |AddClaim(leading, groups, claim)| && |leading| <= k < |AddClaim(leading, groups, claim)[g]|
    ensures var added := AddClaim(leading, groups, claim);
      if g < |groups| && k < |groups[g]| then added[g][k] == groups[g][k]
      else
        && added[g][k] == claim && claim.kind != DocumentClaim
        && (|leading| < k ==> claim.kind != SectionClaim)
        && (k == |leading| ==> g == |groups|)
        && (k == |leading| && 0 < g ==> claim.kind == SectionClaim)
  {
  }

  /** A section claim opens its group: only the claim right after the leading ones can be a section, and after the first group it is one. */
  lemma {:induction false} SectionsOpenGroups(leading: seq<Claim>, claims: seq<Claim>, g: nat, k: nat)
    requires g < |GroupsFrom(leading, claims)| && |leading| <= k < |GroupsFrom(leading, claims)[g]|
    ensures var claim := GroupsFrom(leading, claims)[g][k];
      && claim.kind != DocumentClaim
      && (|leading| < k ==> claim.kind != SectionClaim)
      && (k == |leading| && 0 < g ==> claim.kind == SectionClaim)
  {
    hide AddClaim;
    var n := |claims| - 1;
    var earlier := GroupsFrom(leading, claims[..n]);
    GroupsConserve(leading, claims[..n]);
    AddedAt(leading, earlier, claims[n], g, k);
    if g < |earlier| && k < |earlier[g]| {
      SectionsOpenGroups(leading, claims[..n], g, k);
    }
  }

  lemma {:induction false} TailMember(skip: nat, groups: seq<seq<Claim>>, c: Claim) returns (g: nat)
    requires c in Tails(skip, groups)
    ensures g < |groups| && c in groups[g]
  {
    var n := |groups| - 1;
    if c in Tails(skip, groups[..n]) {
      g := TailMember(skip, groups[..n], c);
    } else {
      g := n;
    }
  }

  lemma {:induction false} MemberOfTails(skip: nat, groups: seq<seq<Claim>>, g: nat, k: nat)
    requires g < |groups| && skip <= k < |groups[g]|
    ensures groups[g][k] in Tails(skip, groups)
  {
    if g < |groups| - 1 {
      MemberOfTails(skip, groups[..|groups| - 1], g, k);
    } else {
      assert groups[g][k] == groups[g][skip..][k - skip];
    }
  }

  /** The groups hold exactly the claims of the document. */
  lemma GroupedIffClaimed(claims: seq<Claim>, c: Claim)
    ensures c in claims <==> exists g :: 0 <= g < |SectionClaimGroups(claims)| && c in SectionClaimGroups(claims)[g]
  {
    hide SectionClaimGroups, Tails;
    var leading, groups := OfKind(claims, true), SectionClaimGroups(claims);
    ClaimsConserved(claims);
    if c in claims {
      if c.kind == DocumentClaim {
        assert c in leading && leading <= groups[0];
        var k :| 0 <= k < |leading| && leading[k] == c;
        assert groups[0][k] == c;
      } else {
        assert c in OfKind(claims, false);
        var g := TailMember(|leading|, groups, c);
      }
    }
    if g :| 0 <= g < |groups| && c in groups[g] {
      var k :| 0 <= k < |groups[g]| && groups[g][k] == c;
      if k < |leading| {
        assert leading[k] == c;
      } else {
        MemberOfTails(|leading|, groups, g, k);
      }
    }
  }

  /** Picking claims goes claim by claim and keeps their order. */
  lemma {:induction false} PickedInOrder(a: seq<Claim>, b: seq<Claim>, documents: bool)
    ensures OfKind(a + b, documents) == OfKind(a, documents) + OfKind(b, documents)
  {
    if b == [] {
      assert a + b == a;
    } else {
      var n := |b| - 1;
      assert (a + b)[..|a + b| - 1] == a + b[..n];
      PickedInOrder(a, b[..n], documents);
    }
  }

  // ------------------------------------------------------ ordered documents

  function InsertByPath(sorted: seq<Document>, d: Document): seq<Document> {
    if sorted == [] then [d]
    else if Before(d.path, sorted[0].path) then [d] + sorted
    else [sorted[0]] + InsertByPath(sorted[1..], d)
  }

  /** `sorted(documents, key=path)`. */
  function SortByPath(documents: seq<Document>): seq<Document> {
    if documents == [] then [] else
      InsertByPath(SortByPath(documents[..|documents| - 1]), documents[|documents| - 1])
  }

  lemma {:induction false} InsertMultiset(sorted: seq<Document>, d: Document)
    ensures multiset(InsertByPath(sorted, d)) == multiset(sorted) + multiset{d}
  {
    if sorted != [] {
      assert sorted == [sorted[0]] + sorted[1..];
      InsertMultiset(sorted[1..], d);
    }
  }

  lemma {:induction false} SortKeepsDocuments(documents: seq<Document>)
    ensures multiset(SortByPath(documents)) == multiset(documents)
  {
    if documents != [] {
      var n := |documents| - 1;
      SortKeepsDocuments(documents[..n]);
      InsertMultiset(SortByPath(documents[..n]), documents[n]);
      assert documents == documents[..n] + [documents[n]];
    }
  }

  /** No document comes before one whose path sorts first. */
  ghost predicate InPathOrder(documents: seq<Document>) {
    forall i, j :: 0 <= i < j < |documents| ==> !Before(documents[j].path, documents[i].path)
  }

  lemma {:induction false} InsertInOrder(sorted: seq<Document>, d: Document)
    requires InPathOrder(sorted)
    ensures InPathOrder(InsertByPath(sorted, d))
  {
    if sorted != [] {
      var inserted := InsertByPath(sorted, d);
      InsertMultiset(sorted[1..], d);
      BeforeIrreflexive(d.path);
      if Before(d.path, sorted[0].path) {
        forall j | 0 < j < |inserted|
          ensures !Before(inserted[j].path, d.path)
        {
          if Before(inserted[j].path, d.path) {
            BeforeTransitive(inserted[j].path, d.path, sorted[0].path);
            BeforeIrreflexive(sorted[0].path);
          }
        }
      } else {
        InsertInOrder(sorted[1..], d);
        forall j | 0 < j < |inserted|
          ensures !Before(inserted[j].path, sorted[0].path)
        {
          assert inserted[j] in multiset(InsertByPath(sorted[1..], d));
        }
      }
    }
  }

  lemma {:induction false} SortedInOrder(documents: seq<Document>)
    ensures InPathOrder(SortByPath(documents))
  {
    if documents != [] {
      SortedInOrder(documents[..|documents| - 1]);
      InsertInOrder(SortByPath(documents[..|documents| - 1]), documents[|documents| - 1]);
    }
  }

  // -------------------------------------------------------------- slicing

  function Kept(claims: seq<Claim>): (kept: seq<Claim>)
    ensures forall c :: c in kept <==> c in claims && c.id != ""
  {
    if claims == [] then [] else
      var n := |claims| - 1;
      var earlier := Kept(claims[..n]);
      assert claims == claims[..n] + [claims[n]];
      if claims[n].id != "" then earlier + [claims[n]] else earlier
  }

  function ClaimsOf(claims: seq<Claim>, path: string): (own: seq<Claim>)
    ensures forall c :: c in own <==> c in claims && c.documentPath == path
  {
    if claims == [] then [] else
      var n := |claims| - 1;
      var earlier := ClaimsOf(claims[..n], path);
      assert claims == claims[..n] + [claims[n]];
      if claims[n].documentPath == path then earlier + [claims[n]] else earlier
  }

  /** The heading of the first document claim, or the name of the file. */
  function Title(claims: seq<Claim>, stem: string): string {
    if claims == [] then stem
    else if claims[0].kind == DocumentClaim then claims[0].heading
    else Title(claims[1..], stem)
  }

  /** A group of claims with the document it belongs to. */
  datatype Part = Part(path: string, title: string, group: seq<Claim>)

  function PartsOf(path: string, title: string, groups: seq<seq<Claim>>): (parts: seq<Part>)
    ensures |parts| == |groups|
    ensures forall i :: 0 <= i < |parts| ==> parts[i] == Part(path, title, groups[i])
  {
    if groups == [] then [] else
      var n := |groups| - 1;
      PartsOf(path, title, groups[..n]) + [Part(path, title, groups[n])]
  }

  /** All groups of the documents, document by document. */
  function Parts(documents: seq<Document>, claims: seq<Claim>, stem: string -> string): seq<Part> {
    if documents == [] then [] else
      var n := |documents| - 1;
      var own := ClaimsOf(claims, documents[n].path);
      Parts(documents[..n], claims, stem)
      + PartsOf(documents[n].path, Title(own, stem(documents[n].path)), SectionClaimGroups(own))
  }

  function Ids(group: seq<Claim>): (ids: seq<string>)
    ensures |ids| == |group| && forall i :: 0 <= i < |ids| ==> ids[i] == group[i].id
  {
    if group == [] then [] else Ids(group[..|group| - 1]) + [group[|group| - 1].id]
  }

  function Headings(group: seq<Claim>): seq<string> {
    if group == [] then [] else
      var n := |group| - 1;
      Headings(group[..n]) + if group[n].kind == DocumentClaim then [] else [group[n].heading]
  }

  /** What each of these selections does with a single claim. */
  lemma SelectionsOfOne(c: Claim, documents: bool, path: string)
    ensures OfKind([c], documents) == if (c.kind == DocumentClaim) == documents then [c] else []
    ensures ClaimsOf([c], path) == if c.documentPath == path then [c] else []
    ensures Headings([c]) == if c.kind == DocumentClaim then [] else [c.heading]
  {
    assert [c][..0] == [];
  }

  /** The headings of a group are those of its claims that are not about the whole document, in order. */
  lemma {:induction false} HeadingsInOrder(a: seq<Claim>, b: seq<Claim>)
    ensures Headings(a + b) == Headings(a) + Headings(b)
  {
    if b == [] {
      assert a + b == a;
    } else {
      var n := |b| - 1;
      assert (a + b)[..|a + b| - 1] == a + b[..n];
      HeadingsInOrder(a, b[..n]);
    }
  }

  /** The claims of a document keep their order in the index. */
  lemma {:induction false} OwnClaimsInOrder(a: seq<Claim>, b: seq<Claim>, path: string)
    ensures ClaimsOf(a + b, path) == ClaimsOf(a, path) + ClaimsOf(b, path)
  {
    if b == [] {
      assert a + b == a;
    } else {
      var n := |b| - 1;
      assert (a + b)[..|a + b| - 1] == a + b[..n];
      OwnClaimsInOrder(a, b[..n], path);
    }
  }

  /** A document is called by the heading of its first claim about the whole document, else by its file name. */
  lemma {:induction false} TitleMeaning(claims: seq<Claim>, stem: string, i: nat)
    ensures (forall j :: 0 <= j < |claims| ==> claims[j].kind != DocumentClaim) ==> Title(claims, stem) == stem
    ensures i < |claims| && claims[i].kind == DocumentClaim && (forall j :: 0 <= j < i ==> claims[j].kind != DocumentClaim) ==>
      Title(claims, stem) == claims[i].heading
  {
    if claims != [] {
      TitleMeaning(claims[1..], stem, if i == 0 then 0 else i - 1);
    }
  }

  function SliceId(n: nat): string { "DOC-SLICE-" + Padded(n) }

  function StoryId(n: nat): string { "STORY-" + Padded(n) }

  function CoverageId(n: nat): string { "DESIGN-REQ-" + Padded(n) }

  function PacketId(n: nat): string { "IMPL-PACKET-" + Padded(n) }

  function MakeSlice(n: nat, part: Part): DocSlice {
    var headings := Headings(part.group);
    DocSlice(SliceId(n), StoryId(n), part.path, if headings == [] then [part.title] else headings, Ids(part.group), CoverageId(n))
  }

  function MakePacket(n: nat, slice: DocSlice): Packet {
    Packet(PacketId(n), slice.id, slice.storyId, slice.stableClaimIds + [slice.coverageId])
  }

  /** The keys of a slice's own coverage. */
  function Coverage(slice: DocSlice): set<string> {
    (set i | 0 <= i < |slice.stableClaimIds| :: slice.stableClaimIds[i]) + {slice.coverageId}
  }

  function AddCoverage(m: Matrix, keys: set<string>, id: string): Matrix {
    m + map k | k in keys :: (if k in m then m[k] else []) + [id]
  }

  function MatrixOf(slices: seq<DocSlice>): Matrix {
    if slices == [] then map[] else
      var n := |slices| - 1;
      AddCoverage(MatrixOf(slices[..n]), Coverage(slices[n]), slices[n].id)
  }

  function UncoveredIds(claims: seq<Claim>, m: Matrix): (ids: seq<string>)
    ensures forall id :: id in ids <==> id !in m && exists c :: c in claims && c.id == id
  {
    if claims == [] then [] else
      var n := |claims| - 1;
      var earlier := UncoveredIds(claims[..n], m);
      assert claims == claims[..n] + [claims[n]];
      if claims[n].id !in m then earlier + [claims[n].id] else earlier
  }

  lemma CoverageNone(m: Matrix, id: string)
    ensures AddCoverage(m, {}, id) == m
  {
  }

  lemma CoverageStep(m: Matrix, keys: set<string>, key: string, id: string)
    requires key !in keys
    ensures var added := AddCoverage(m, keys, id);
      AddCoverage(m, keys + {key}, id) == added[key := (if key in added then added[key] else []) + [id]]
  {
  }

  method ExtendMatrix(m: Matrix, keys: set<string>, id: string) returns (extended: Matrix)
    ensures extended == AddCoverage(m, keys, id)
  {
    CoverageNone(m, id);
    hide AddCoverage;
    extended := m;
    var remaining := keys;
    assert keys - remaining == {};
    while remaining != {}
      invariant remaining <= keys
      invariant extended == AddCoverage(m, keys - remaining, id)
      decreases remaining
    {
      var key :| key in remaining;
      CoverageStep(m, keys - remaining, key, id);
      assert keys - remaining + {key} == keys - (remaining - {key});
      remaining := remaining - {key};
      extended := extended[key := (if key in extended then extended[key] else []) + [id]];
    }
    assert keys - remaining == keys;
  }

  /** The slices and packets are the numbered parts, one for one. */
  predicate Numbered(parts: seq<Part>, slices: seq<DocSlice>, packets: seq<Packet>) {
    && |slices| == |packets| == |parts|
    && forall i :: 0 <= i < |parts| ==> slices[i] == MakeSlice(i + 1, parts[i]) && packets[i] == MakePacket(i + 1, slices[i])
  }

  lemma MatrixSnoc(slices: seq<DocSlice>, slice: DocSlice)
    ensures MatrixOf(slices + [slice]) == AddCoverage(MatrixOf(slices), Coverage(slice), slice.id)
  {
    assert (slices + [slice])[..|slices|] == slices;
  }

  /** One turn of the slicing loop: a slice, its packet and its rows in the matrix. */
  method AppendSlice(part: Part, coverageCounter: nat, done: Payload, ghost parts: seq<Part>) returns (p: Payload)
    requires Numbered(parts, done.slices, done.packets) && done.coverageMatrix == MatrixOf(done.slices)
    requires coverageCounter == |done.slices| + 1
    ensures Numbered(parts + [part], p.slices, p.packets) && p.coverageMatrix == MatrixOf(p.slices)
    ensures |p.slices| == |done.slices| + 1
  {
    hide Coverage, AddCoverage, Ids, Headings, Padded, MatrixOf;
    var headings := Headings(part.group);
    if headings == [] {
      headings := [part.title];
    }
    var number := |done.slices| + 1;
    var slice := DocSlice(SliceId(number), StoryId(number), part.path, headings, Ids(part.group), CoverageId(coverageCounter));
    var matrix := ExtendMatrix(done.coverageMatrix, Coverage(slice), slice.id);
    var packet := Packet(PacketId(number), slice.id, StoryId(number), slice.stableClaimIds + [slice.coverageId]);
    MatrixSnoc(done.slices, slice);
    p := Payload(done.slices + [slice], done.packets + [packet], matrix, []);
  }

  /** The groups of one document; the coverage counter runs on through all documents. */
  method SliceDocument(path: string, title: string, groups: seq<seq<Claim>>, counter: nat, done: Payload, ghost parts: seq<Part>)
    returns (p: Payload, coverageCounter: nat)
    requires Numbered(parts, done.slices, done.packets) && done.coverageMatrix == MatrixOf(done.slices)
    requires counter == |done.slices| + 1
    ensures Numbered(parts + PartsOf(path, title, groups), p.slices, p.packets)
    ensures p.coverageMatrix == MatrixOf(p.slices)
    ensures coverageCounter == |p.slices| + 1
  {
    hide Numbered, MatrixOf;
    p := done;
    coverageCounter := counter;
    ghost var sofar := parts;
    for g := 0 to |groups|
      invariant sofar == parts + PartsOf(path, title, groups[..g])
      invariant Numbered(sofar, p.slices, p.packets)
      invariant coverageCounter == |p.slices| + 1
      invariant p.coverageMatrix == MatrixOf(p.slices)
    {
      assert groups[..g + 1][..g] == groups[..g];
      p := AppendSlice(Part(path, title, groups[g]), coverageCounter, p, sofar);
      coverageCounter := coverageCounter + 1;
      sofar := sofar + [Part(path, title, groups[g])];
    }
    assert groups[..|groups|] == groups;
  }

  method BuildDocSlicePayload(documents: seq<Document>, index: seq<Claim>, stem: string -> string) returns (p: Payload)
    ensures Numbered(Parts(SortByPath(documents), Kept(index), stem), p.slices, p.packets)
    ensures p.coverageMatrix == MatrixOf(p.slices)
    ensures p.uncovered == UncoveredIds(Kept(index), MatrixOf(p.slices))
  {
    var claims := Kept(index);
    var sorted := SortByPath(documents);
    p := Payload([], [], map[], []);
    var coverageCounter := 1;
    for d := 0 to |sorted|
      invariant Numbered(Parts(sorted[..d], claims, stem), p.slices, p.packets)
      invariant p.coverageMatrix == MatrixOf(p.slices)
      invariant coverageCounter == |p.slices| + 1
    {
      assert sorted[..d + 1][..d] == sorted[..d];
      var own := ClaimsOf(claims, sorted[d].path);
      var groups := GroupSectionClaims(own);
      p, coverageCounter := SliceDocument(sorted[d].path, Title(own, stem(sorted[d].path)), groups, coverageCounter, p, Parts(sorted[..d], claims, stem));
    }
    assert sorted[..|sorted|] == sorted;
    p := p.(uncovered := UncoveredIds(claims, p.coverageMatrix));
  }

  // ------------------------------------------------------------- coverage

  /** The slices that own a key, in order. */
  function Owners(slices: seq<DocSlice>, key: string): seq<string> {
    if slices == [] then [] else
      var n := |slices| - 1;
      Owners(slices[..n], key) + if key in Coverage(slices[n]) then [slices[n].id] else []
  }

  /** The matrix is the inverse of the slices' coverage: a key lists exactly its owners. */
  lemma {:induction false} MatrixIsInverse(slices: seq<DocSlice>, key: string)
    ensures var m := MatrixOf(slices);
      && (key in m <==> Owners(slices, key) != [])
      && (key in m ==> m[key] == Owners(slices, key))
  {
    hide Coverage;
    if slices != [] {
      MatrixIsInverse(slices[..|slices| - 1], key);
    }
  }

  lemma {:induction false} OwnersExact(slices: seq<DocSlice>, key: string, id: string)
    ensures id in Owners(slices, key) <==> exists i :: 0 <= i < |slices| && slices[i].id == id && key in Coverage(slices[i])
  {
    hide Coverage;
    if slices != [] {
      OwnersExact(slices[..|slices| - 1], key, id);
    }
  }

  lemma SliceIdInjective(m: nat, n: nat)
    requires SliceId(m) == SliceId(n)
    ensures m == n
  {
    assert SliceId(m)[|"DOC-SLICE-"|..] == Padded(m);
    assert SliceId(n)[|"DOC-SLICE-"|..] == Padded(n);
    PaddedInjective(m, n);
  }

  /** Slice numbers, coverage numbers and packet numbers coincide, and no two slices share an identifier. */
  lemma NumbersCoincide(parts: seq<Part>, slices: seq<DocSlice>, packets: seq<Packet>, i: nat, j: nat)
    requires Numbered(parts, slices, packets) && i < |slices| && j < |slices|
    ensures slices[i].id == SliceId(j + 1) <==> i == j
    ensures slices[i].coverageId == CoverageId(i + 1) && packets[i].id == PacketId(i + 1)
    ensures packets[i].docSliceId == slices[j].id <==> i == j
  {
    if slices[i].id == SliceId(j + 1) {
      SliceIdInjective(i + 1, j + 1);
    }
  }

  /** A claim identifier in a part comes from a claim of a listed document. */
  lemma {:induction false} PartIsListed(documents: seq<Document>, claims: seq<Claim>, stem: string -> string, i: nat, c: Claim)
    requires i < |Parts(documents, claims, stem)| && c in Parts(documents, claims, stem)[i].group
    ensures c in claims && exists d :: d in documents && d.path == c.documentPath
  {
    hide SectionClaimGroups, Title;
    var n := |documents| - 1;
    var earlier := Parts(documents[..n], claims, stem);
    if i < |earlier| {
      PartIsListed(documents[..n], claims, stem, i, c);
    } else {
      var own := ClaimsOf(claims, documents[n].path);
      assert c in SectionClaimGroups(own)[i - |earlier|];
      GroupedIffClaimed(own, c);
      assert documents[n] in documents;
    }
  }

  lemma {:induction false} ListedHasPart(documents: seq<Document>, claims: seq<Claim>, stem: string -> string, c: Claim, d: nat) returns (i: nat)
    requires c in claims && d < |documents| && documents[d].path == c.documentPath
    ensures i < |Parts(documents, claims, stem)| && c in Parts(documents, claims, stem)[i].group
  {
    hide SectionClaimGroups, Title;
    var n := |documents| - 1;
    if d < n {
      i := ListedHasPart(documents[..n], claims, stem, c, d);
    } else {
      var own := ClaimsOf(claims, documents[n].path);
      GroupedIffClaimed(own, c);
      var g :| 0 <= g < |SectionClaimGroups(own)| && c in SectionClaimGroups(own)[g];
      i := |Parts(documents[..n], claims, stem)| + g;
    }
  }

  predicate Listed(documents: seq<Document>, c: Claim) {
    exists d :: 0 <= d < |documents| && documents[d].path == c.documentPath
  }

  /** The identifier of some claim of a listed document. */
  predicate ListedId(documents: seq<Document>, claims: seq<Claim>, key: string) {
    exists c :: c in claims && c.id == key && Listed(documents, c)
  }

  /** One of the first `n` coverage numbers. */
  predicate IssuedCoverage(n: nat, key: string) {
    exists i :: 1 <= i <= n && key == CoverageId(i)
  }

  lemma SliceIdsAreListed(documents: seq<Document>, claims: seq<Claim>, stem: string -> string,
                          slices: seq<DocSlice>, packets: seq<Packet>, key: string)
    requires Numbered(Parts(SortByPath(documents), claims, stem), slices, packets)
    ensures ListedId(documents, claims, key) <==> exists i :: 0 <= i < |slices| && key in slices[i].stableClaimIds
  {
    hide Parts, SortByPath, CoverageId, SliceId, StoryId, PacketId, Headings;
    var sorted := SortByPath(documents);
    var parts := Parts(sorted, claims, stem);
    SortedMembers(documents);
    if i :| 0 <= i < |slices| && key in slices[i].stableClaimIds {
      var k :| 0 <= k < |parts[i].group| && parts[i].group[k].id == key;
      var c := parts[i].group[k];
      PartIsListed(sorted, claims, stem, i, c);
      assert Listed(documents, c);
    }
    if ListedId(documents, claims, key) {
      var c :| c in claims && c.id == key && Listed(documents, c);
      var d :| 0 <= d < |documents| && documents[d].path == c.documentPath;
      assert documents[d] in sorted;
      var e :| 0 <= e < |sorted| && sorted[e] == documents[d];
      var i := ListedHasPart(sorted, claims, stem, c, e);
      var k :| 0 <= k < |parts[i].group| && parts[i].group[k] == c;
      assert slices[i].stableClaimIds[k] == key;
    }
  }

  /** The issued coverage numbers are those of the slices. */
  lemma IssuedExactly(parts: seq<Part>, slices: seq<DocSlice>, packets: seq<Packet>, key: string)
    requires Numbered(parts, slices, packets)
    ensures IssuedCoverage(|slices|, key) <==> exists i :: 0 <= i < |slices| && key == slices[i].coverageId
  {
    hide CoverageId, SliceId, StoryId, PacketId, Headings, Ids;
    if IssuedCoverage(|slices|, key) {
      var i :| 1 <= i <= |slices| && key == CoverageId(i);
      var slice := slices[i - 1];
      assert slice == MakeSlice(i, parts[i - 1]);
    }
  }

  /** A key is covered exactly if it is the identifier of a claim of a listed document or one of the issued coverage numbers. */
  lemma CoveredExactly(documents: seq<Document>, claims: seq<Claim>, stem: string -> string,
                       slices: seq<DocSlice>, packets: seq<Packet>, key: string)
    requires Numbered(Parts(SortByPath(documents), claims, stem), slices, packets)
    ensures key in MatrixOf(slices) <==> ListedId(documents, claims, key) || IssuedCoverage(|slices|, key)
  {
    hide MatrixOf, Parts, SortByPath, ListedId, Numbered, IssuedCoverage;
    SliceIdsAreListed(documents, claims, stem, slices, packets, key);
    CoveredBySlice(slices, key);
    IssuedExactly(Parts(SortByPath(documents), claims, stem), slices, packets, key);
  }

  /** The coverage gate passes exactly if every claim shares its identifier with a listed claim or a coverage number; so only unlisted claims fail it. */
  lemma GateExact(documents: seq<Document>, claims: seq<Claim>, stem: string -> string, slices: seq<DocSlice>, packets: seq<Packet>)
    requires Numbered(Parts(SortByPath(documents), claims, stem), slices, packets)
    ensures UncoveredIds(claims, MatrixOf(slices)) == [] <==>
      forall c :: c in claims ==> ListedId(documents, claims, c.id) || IssuedCoverage(|slices|, c.id)
    ensures forall c :: c in claims && c.id in UncoveredIds(claims, MatrixOf(slices)) ==> !Listed(documents, c)
  {
    hide MatrixOf, Parts, SortByPath, IssuedCoverage, Listed, Numbered, UncoveredIds;
    var uncovered := UncoveredIds(claims, MatrixOf(slices));
    forall c | c in claims
      ensures c.id in MatrixOf(slices) <==> ListedId(documents, claims, c.id) || IssuedCoverage(|slices|, c.id)
    {
      CoveredExactly(documents, claims, stem, slices, packets, c.id);
    }
    if uncovered != [] {
      assert uncovered[0] in uncovered;
    }
  }

  /** What a slice and its packet say of their part. */
  lemma SliceContents(parts: seq<Part>, slices: seq<DocSlice>, packets: seq<Packet>, i: nat)
    requires Numbered(parts, slices, packets) && i < |slices|
    ensures slices[i].sourceDocument == parts[i].path
    ensures |slices[i].stableClaimIds| == |parts[i].group|
    ensures forall k :: 0 <= k < |parts[i].group| ==> slices[i].stableClaimIds[k] == parts[i].group[k].id
    ensures slices[i].sections == if Headings(parts[i].group) == [] then [parts[i].title] else Headings(parts[i].group)
    ensures slices[i].storyId == "STORY-" + Padded(i + 1) && slices[i].id == "DOC-SLICE-" + Padded(i + 1)
    ensures slices[i].coverageId == "DESIGN-REQ-" + Padded(i + 1) && packets[i].id == "IMPL-PACKET-" + Padded(i + 1)
    ensures packets[i].docSliceId == slices[i].id && packets[i].storyId == slices[i].storyId
  {
  }

  lemma PacketRefsAreCoverage(parts: seq<Part>, slices: seq<DocSlice>, packets: seq<Packet>, i: nat, key: string)
    requires Numbered(parts, slices, packets) && i < |slices|
    ensures key in packets[i].coverageRefs <==> key in Coverage(slices[i])
  {
    hide SliceId, CoverageId, PacketId, StoryId, MakeSlice;
    assert packets[i] == MakePacket(i + 1, slices[i]);
  }

  /** The references of a packet are exactly the keys of the matrix that its slice owns. */
  lemma PacketRefsAreOwned(parts: seq<Part>, slices: seq<DocSlice>, packets: seq<Packet>, i: nat, key: string)
    requires Numbered(parts, slices, packets) && i < |slices|
    ensures key in packets[i].coverageRefs <==> key in MatrixOf(slices) && slices[i].id in MatrixOf(slices)[key]
  {
    hide MatrixOf, Owners, Coverage, Numbered;
    PacketRefsAreCoverage(parts, slices, packets, i, key);
    MatrixIsInverse(slices, key);
    OwnersExact(slices, key, slices[i].id);
    if j :| 0 <= j < |slices| && slices[j].id == slices[i].id && key in Coverage(slices[j]) {
      NumbersCoincide(parts, slices, packets, i, i);
      NumbersCoincide(parts, slices, packets, i, j);
      assert i == j;
    }
  }

  lemma SortedMembers(documents: seq<Document>)
    ensures forall d :: d in SortByPath(documents) <==> d in documents
  {
    SortKeepsDocuments(documents);
    forall d
      ensures d in SortByPath(documents) <==> d in documents
    {
      assert d in SortByPath(documents) <==> d in multiset(SortByPath(documents));
      assert d in documents <==> d in multiset(documents);
    }
  }

  lemma CoveredBySlice(slices: seq<DocSlice>, key: string)
    ensures key in MatrixOf(slices) <==>
      exists i :: 0 <= i < |slices| && (key in slices[i].stableClaimIds || key == slices[i].coverageId)
  {
    hide MatrixOf, Owners;
    MatrixIsInverse(slices, key);
    var owners := Owners(slices, key);
    if owners != [] {
      OwnersExact(slices, key, owners[0]);
    }
    if i :| 0 <= i < |slices| && (key in slices[i].stableClaimIds || key == slices[i].coverageId) {
      assert key in Coverage(slices[i]);
      OwnersExact(slices, key, slices[i].id);
    }
  }

  /** The gate can fail: a claim of a document that the index does not list is uncovered. */
  method UnlistedClaimFailsGate(stem: string -> string) returns (index: seq<Claim>, p: Payload)
    ensures |index| == 1 && p.uncovered == [index[0].id]
  {
    index := [Claim("claim", "docs/unlisted.md", OtherClaim, "heading")];
    p := BuildDocSlicePayload([], index, stem);
    assert index[..0] == [];
    assert Kept(index) == index;
  }
}
