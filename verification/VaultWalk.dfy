/**
 * The wire seam of drop/vault.py: the walk that puts secrets back into a request,
 * rebuilding only what changes, and skipped when nothing is held. Each
 * placeholder is looked up at its own moment, and the vault may change between.
 */
module VaultWalk {
  import opened Basics
  import opened Vault

  /** The session's own live secrets, as the lookup with this number finds them. */
  type Resolver = nat -> Token -> Option<string>

  const HEAD: string := "[hermes-drop:secret:"
  const PLACEHOLDER_LENGTH: nat := 53

  predicate IsToken(s: string) {
    |s| == 32 && forall i :: 0 <= i < |s| ==> '0' <= s[i] <= '9' || 'a' <= s[i] <= 'f'
  }

  /** A placeholder stands here. */
  predicate Marked(s: string) {
    |s| >= PLACEHOLDER_LENGTH && s[..20] == HEAD && IsToken(s[20..52]) && s[52] == ']'
  }

  /** `PLACEHOLDER_RE.sub`: left to right, what was put in is not looked at again; `k` counts the lookups. */
  function Substituted(s: string, live: Resolver, k: nat): (string, bool, nat) {
    if s == "" then ("", false, k)
    else if Marked(s) then
      var found := live(k)(s[20..52]);
      var (rest, hit, n) := Substituted(s[PLACEHOLDER_LENGTH..], live, k + 1);
      if found.None? then (s[..PLACEHOLDER_LENGTH] + rest, hit, n) else (found.value + rest, true, n)
    else
      var (rest, hit, n) := Substituted(s[1..], live, k);
      (s[..1] + rest, hit, n)
  }

  /** A request; a mapping is its keys and, in the same order, what is under them. */
  datatype Node = Text(s: string) | Mapping(keys: seq<string>, values: seq<Node>) | Items(items: seq<Node>, isTuple: bool) | Atom(id: nat)

  // ---------------------------------------------------------------- the walk, as it is made

  /** `_substitute_tree`: the node itself comes back when nothing in it changed. */
  function Walk(node: Node, live: Resolver, depth: nat, k: nat): (Node, bool, nat)
    decreases node, 1
  {
    if depth > MAX_WALK_DEPTH then (node, false, k)
    else
      match node
      case Text(s) =>
        var (text, hit, n) := Substituted(s, live, k);
        (Text(text), hit, n)
      case Mapping(keys, values) =>
        var (rebuilt, changed, n) := WalkItems(values, live, depth, k);
        (if changed then Mapping(keys, rebuilt) else node, changed, n)
      case Items(items, isTuple) =>
        var (rebuilt, changed, n) := WalkItems(items, live, depth, k);
        (if changed then Items(rebuilt, isTuple) else node, changed, n)
      case Atom(_) => (node, false, k)
  }

  function WalkItems(items: seq<Node>, live: Resolver, depth: nat, k: nat): (seq<Node>, bool, nat)
    decreases items, 0
  {
    if items == [] then ([], false, k)
    else
      var (front, changed, m) := WalkItems(items[..|items| - 1], live, depth, k);
      var (value, hit, n) := Walk(items[|items| - 1], live, depth + 1, m);
      (front + [value], changed || hit, n)
  }

  // ---------------------------------------------------------------- the walk, as it is meant

  datatype Piece = Other(c: char) | Mark(token: Token)

  /** A text as the placeholders in it and the characters between them. */
  function Pieces(s: string): seq<Piece> {
    if s == "" then []
    else if Marked(s) then [Mark(s[20..52])] + Pieces(s[PLACEHOLDER_LENGTH..])
    else [Other(s[0])] + Pieces(s[1..])
  }

  function Length(p: Piece): nat {
    if p.Mark? then PLACEHOLDER_LENGTH else 1
  }

  function Lookups(p: Piece): nat {
    if p.Mark? then 1 else 0
  }

  function Marks(pieces: seq<Piece>): nat {
    if pieces == [] then 0 else Lookups(pieces[0]) + Marks(pieces[1..])
  }

  function WrittenPiece(p: Piece, found: Option<string>): string {
    match p
    case Other(c) => [c]
    case Mark(token) => if found.Some? then found.value else HEAD + token + "]"
  }

  function FoundFor(p: Piece, live: Resolver, k: nat): Option<string> {
    if p.Mark? then live(k)(p.token) else None
  }

  /** Every piece written out, live placeholders as what they stand for when it is their turn. */
  function Written(pieces: seq<Piece>, live: Resolver, k: nat): string {
    if pieces == [] then "" else WrittenPiece(pieces[0], FoundFor(pieces[0], live, k)) + Written(pieces[1..], live, k + Lookups(pieces[0]))
  }

  predicate AnyLive(pieces: seq<Piece>, live: Resolver, k: nat) {
    pieces != [] && (FoundFor(pieces[0], live, k).Some? || AnyLive(pieces[1..], live, k + Lookups(pieces[0])))
  }

  /** How many placeholders are within reach. */
  function NodeMarks(node: Node, depth: nat): nat
    decreases node, 1
  {
    if depth > MAX_WALK_DEPTH then 0
    else
      match node
      case Text(s) => Marks(Pieces(s))
      case Mapping(_, values) => ItemsMarks(values, depth + 1)
      case Items(items, _) => ItemsMarks(items, depth + 1)
      case Atom(_) => 0
  }

  function ItemsMarks(items: seq<Node>, depth: nat): nat
    decreases items, 0
  {
    if items == [] then 0 else ItemsMarks(items[..|items| - 1], depth) + NodeMarks(items[|items| - 1], depth)
  }

  /** The same tree with every text within the depth bound written out. */
  function Everywhere(node: Node, live: Resolver, depth: nat, k: nat): Node
    decreases node, 1
  {
    if depth > MAX_WALK_DEPTH then node
    else
      match node
      case Text(s) => Text(Written(Pieces(s), live, k))
      case Mapping(keys, values) => Mapping(keys, AllEverywhere(values, live, depth + 1, k))
      case Items(items, isTuple) => Items(AllEverywhere(items, live, depth + 1, k), isTuple)
      case Atom(_) => node
  }

  /** Each at its own turn: the placeholders of those before it have been looked up. */
  function AllEverywhere(items: seq<Node>, live: Resolver, depth: nat, k: nat): seq<Node>
    decreases items, 0
  {
    seq(|items|, i requires 0 <= i < |items| => Everywhere(items[i], live, depth, k + ItemsMarks(items[..i], depth)))
  }

  /** Some placeholder within reach is live when it is its turn. */
  predicate Occurs(node: Node, live: Resolver, depth: nat, k: nat)
    decreases node, 1
  {
    depth <= MAX_WALK_DEPTH &&
    match node
    case Text(s) => AnyLive(Pieces(s), live, k)
    case Mapping(_, values) => AnyOccurs(values, live, depth + 1, k)
    case Items(items, _) => AnyOccurs(items, live, depth + 1, k)
    case Atom(_) => false
  }

  predicate AnyOccurs(items: seq<Node>, live: Resolver, depth: nat, k: nat)
    decreases items, 0
  {
    exists i :: 0 <= i < |items| && Occurs(items[i], live, depth, k + ItemsMarks(items[..i], depth))
  }

  // ---------------------------------------------------------------- every placeholder is found

  /** No placeholder starts inside another. */
  lemma MarksAreApart(s: string, i: nat)
    requires Marked(s) && 0 < i < PLACEHOLDER_LENGTH && i < |s|
    ensures !Marked(s[i..])
  {
    if i < 20 {
      assert s[..20][i] == HEAD[i];
    } else if i < 52 {
      assert s[20..52][i - 20] == s[i];
    }
  }

  /** Where the `k`th piece starts in the text. */
  function StartOf(pieces: seq<Piece>, k: nat): nat
    requires k <= |pieces|
  {
    if k == 0 then 0 else Length(pieces[0]) + StartOf(pieces[1..], k - 1)
  }

  /** Every position at which a placeholder stands begins a placeholder piece, and no other piece is one. */
  lemma {:induction false} PiecesFindAll(s: string, i: nat)
    requires i < |s|
    ensures Marked(s[i..]) <==> exists k :: 0 <= k < |Pieces(s)| && Pieces(s)[k].Mark? && StartOf(Pieces(s), k) == i
  {
    hide IsToken;
    var pieces := Pieces(s);
    PiecesFirst(s);
    var step := Length(pieces[0]);
    assert pieces[1..] == Pieces(s[step..]);
    if i == 0 {
      assert s[0..] == s;
      StartsLater(pieces);
      if Marked(s) {
        assert pieces[0].Mark? && StartOf(pieces, 0) == 0;
      }
    } else if i < step {
      MarksAreApart(s, i);
      StartsLater(pieces);
    } else if i < |s| {
      assert s[step..][i - step..] == s[i..];
      PiecesFindAll(s[step..], i - step);
      StartsShift(pieces, i);
    }
  }

  lemma StartsLater(pieces: seq<Piece>)
    ensures forall k :: 0 < k <= |pieces| ==> StartOf(pieces, k) >= Length(pieces[0])
  {
  }

  lemma StartsShift(pieces: seq<Piece>, i: nat)
    requires pieces != [] && i >= Length(pieces[0])
    ensures (exists k :: 0 <= k < |pieces| && pieces[k].Mark? && StartOf(pieces, k) == i)
      <==> exists k :: 0 <= k < |pieces[1..]| && pieces[1..][k].Mark? && StartOf(pieces[1..], k) == i - Length(pieces[0])
  {
    if k :| 0 <= k < |pieces| && pieces[k].Mark? && StartOf(pieces, k) == i {
      assert k > 0 && pieces[1..][k - 1] == pieces[k] && StartOf(pieces[1..], k - 1) == i - Length(pieces[0]);
    }
    if k :| 0 <= k < |pieces[1..]| && pieces[1..][k].Mark? && StartOf(pieces[1..], k) == i - Length(pieces[0]) {
      assert pieces[k + 1] == pieces[1..][k] && StartOf(pieces, k + 1) == i;
    }
  }

  // ---------------------------------------------------------------- the two are the same

  lemma MarkSplits(s: string)
    requires Marked(s)
    ensures s[..PLACEHOLDER_LENGTH] == HEAD + s[20..52] + "]"
  {
    assert s[..PLACEHOLDER_LENGTH] == s[..20] + s[20..52] + [s[52]];
  }

  lemma PiecesFirst(s: string)
    requires s != ""
    ensures Pieces(s) == if Marked(s) then [Mark(s[20..52])] + Pieces(s[PLACEHOLDER_LENGTH..]) else [Other(s[0])] + Pieces(s[1..])
  {
    hide IsToken;
  }

  lemma FirstOf(first: Piece, rest: seq<Piece>, live: Resolver, k: nat)
    ensures var pieces, found := [first] + rest, FoundFor(first, live, k);
      && Written(pieces, live, k) == WrittenPiece(first, found) + Written(rest, live, k + Lookups(first))
      && (AnyLive(pieces, live, k) <==> found.Some? || AnyLive(rest, live, k + Lookups(first)))
      && Marks(pieces) == Lookups(first) + Marks(rest)
  {
    hide WrittenPiece, FoundFor;
    assert ([first] + rest)[1..] == rest;
  }

  lemma NoPieces(live: Resolver, k: nat)
    ensures Pieces("") == [] && Written([], live, k) == "" && !AnyLive([], live, k) && Marks([]) == 0
  {
  }

  lemma MarkIsLong(s: string)
    requires Marked(s)
    ensures |s| >= PLACEHOLDER_LENGTH
  {
  }

  /** The substitution replaces exactly the live placeholders, knows whether there were any, and looks each one up once. */
  lemma {:induction false} SubstitutedIsWritten(s: string, live: Resolver, k: nat)
    ensures var (text, hit, n) := Substituted(s, live, k);
      text == Written(Pieces(s), live, k) && (hit <==> AnyLive(Pieces(s), live, k)) && n == k + Marks(Pieces(s))
  {
    hide Marked, Written, Pieces, AnyLive, Marks;
    if s == "" {
      NoPieces(live, k);
    } else {
      PiecesFirst(s);
      if Marked(s) {
        MarkIsLong(s);
        MarkSplits(s);
        SubstitutedIsWritten(s[PLACEHOLDER_LENGTH..], live, k + 1);
        FirstOf(Mark(s[20..52]), Pieces(s[PLACEHOLDER_LENGTH..]), live, k);
      } else {
        SubstitutedIsWritten(s[1..], live, k);
        FirstOf(Other(s[0]), Pieces(s[1..]), live, k);
        assert s[..1] == [s[0]];
      }
    }
  }

  /** With nothing live in it a text is written as it was. */
  lemma {:induction false} NothingLiveNothingChanges(s: string, live: Resolver, k: nat)
    requires !AnyLive(Pieces(s), live, k)
    ensures Written(Pieces(s), live, k) == s
  {
    hide Marked, Written, Pieces, AnyLive;
    if s == "" {
      NoPieces(live, k);
    } else {
      PiecesFirst(s);
      if Marked(s) {
        MarkIsLong(s);
        MarkSplits(s);
        FirstOf(Mark(s[20..52]), Pieces(s[PLACEHOLDER_LENGTH..]), live, k);
        NothingLiveNothingChanges(s[PLACEHOLDER_LENGTH..], live, k + 1);
        assert s == s[..PLACEHOLDER_LENGTH] + s[PLACEHOLDER_LENGTH..];
      } else {
        FirstOf(Other(s[0]), Pieces(s[1..]), live, k);
        NothingLiveNothingChanges(s[1..], live, k);
        assert s == [s[0]] + s[1..];
      }
    }
  }

  lemma AllEverywhereGrows(items: seq<Node>, live: Resolver, depth: nat, k: nat)
    requires items != []
    ensures var front := items[..|items| - 1];
      AllEverywhere(items, live, depth, k)
        == AllEverywhere(front, live, depth, k) + [Everywhere(items[|front|], live, depth, k + ItemsMarks(front, depth))]
  {
    hide Everywhere, ItemsMarks;
    var front := items[..|items| - 1];
    assert forall i :: 0 <= i < |front| ==> items[i] == front[i] && items[..i] == front[..i];
  }

  lemma AnyOccursGrows(items: seq<Node>, live: Resolver, depth: nat, k: nat)
    requires items != []
    ensures var front := items[..|items| - 1];
      AnyOccurs(items, live, depth, k) <==> AnyOccurs(front, live, depth, k) || Occurs(items[|front|], live, depth, k + ItemsMarks(front, depth))
  {
    hide Occurs, ItemsMarks;
    var front := items[..|items| - 1];
    assert forall i :: 0 <= i < |front| ==> items[i] == front[i] && items[..i] == front[..i];
  }

  /** Rebuilding only what changed gives the tree that rebuilding everything would. */
  lemma {:induction false} WalkIsEverywhere(node: Node, live: Resolver, depth: nat, k: nat)
    ensures Walk(node, live, depth, k) == (Everywhere(node, live, depth, k), Occurs(node, live, depth, k), k + NodeMarks(node, depth))
    ensures !Occurs(node, live, depth, k) ==> Everywhere(node, live, depth, k) == node
    decreases node, 1
  {
    hide Substituted, Written, Pieces, AnyLive, Marks, WalkItems, AllEverywhere, AnyOccurs, ItemsMarks;
    if depth <= MAX_WALK_DEPTH {
      match node
      case Text(s) =>
        SubstitutedIsWritten(s, live, k);
        if !AnyLive(Pieces(s), live, k) {
          NothingLiveNothingChanges(s, live, k);
        }
      case Mapping(_, values) => ItemsAreEverywhere(values, live, depth, k);
      case Items(items, _) => ItemsAreEverywhere(items, live, depth, k);
      case Atom(_) =>
    }
  }

  lemma {:induction false} ItemsAreEverywhere(items: seq<Node>, live: Resolver, depth: nat, k: nat)
    ensures WalkItems(items, live, depth, k)
      == (AllEverywhere(items, live, depth + 1, k), AnyOccurs(items, live, depth + 1, k), k + ItemsMarks(items, depth + 1))
    ensures !AnyOccurs(items, live, depth + 1, k) ==> AllEverywhere(items, live, depth + 1, k) == items
    decreases items, 0
  {
    hide Everywhere, Occurs, Walk, NodeMarks, AllEverywhere, AnyOccurs;
    if items == [] {
      NoItems(live, depth + 1, k);
    } else {
      var front := items[..|items| - 1];
      ItemsAreEverywhere(front, live, depth, k);
      WalkIsEverywhere(items[|front|], live, depth + 1, k + ItemsMarks(front, depth + 1));
      AllEverywhereGrows(items, live, depth + 1, k);
      AnyOccursGrows(items, live, depth + 1, k);
      assert items == front + [items[|front|]];
    }
  }

  lemma NoItems(live: Resolver, depth: nat, k: nat)
    ensures AllEverywhere([], live, depth, k) == [] && !AnyOccurs([], live, depth, k)
  {
    hide Everywhere, Occurs, ItemsMarks;
  }

  // ---------------------------------------------------------------- the middleware

  function SessionsOwn(items: Table, session: string): Token -> Option<string> {
    token => Found(items, token, session)
  }

  /** The vault as the lookups of one walk find it, lapsed entries gone; before them it was asked whether it holds anything. */
  type Moments = nat -> Table

  function OwnAt(moments: Moments, session: string): Resolver {
    k => SessionsOwn(moments(k + 1), session)
  }

  /** `llm_request_middleware`: the walk is skipped if nothing is held when it is asked. */
  function Middleware(moments: Moments, session: string, request: Node): Option<Node> {
    if !request.Mapping? || session == "" || moments(0) == [] then None
    else
      var (substituted, changed, _) := Walk(request, OwnAt(moments, session), 0, 0);
      if changed then Some(substituted) else None
  }

  ghost predicate Silent(live: Resolver) {
    forall j, token :: live(j)(token).None?
  }

  lemma {:induction false} NothingOccurs(node: Node, live: Resolver, depth: nat, k: nat)
    requires Silent(live)
    ensures !Occurs(node, live, depth, k)
    decreases node, 1
  {
    hide Silent, ItemsMarks, AnyLive, Pieces, AnyOccurs;
    match node
    case Text(s) => NothingLive(Pieces(s), live, k);
    case Mapping(_, values) => NoneOccurs(values, live, depth + 1, k);
    case Items(items, _) => NoneOccurs(items, live, depth + 1, k);
    case Atom(_) =>
  }

  lemma {:induction false} NoneOccurs(items: seq<Node>, live: Resolver, depth: nat, k: nat)
    requires Silent(live)
    ensures !AnyOccurs(items, live, depth, k)
    decreases items, 0
  {
    hide Silent, ItemsMarks, Occurs;
    forall i | 0 <= i < |items|
      ensures !Occurs(items[i], live, depth, k + ItemsMarks(items[..i], depth))
    {
      NothingOccurs(items[i], live, depth, k + ItemsMarks(items[..i], depth));
    }
  }

  lemma {:induction false} NothingLive(pieces: seq<Piece>, live: Resolver, k: nat)
    requires Silent(live)
    ensures !AnyLive(pieces, live, k)
  {
    if pieces != [] {
      NothingLive(pieces[1..], live, k + Lookups(pieces[0]));
    }
  }

  lemma NobodysLive(moments: Moments, session: string)
    requires session == "" || forall k :: moments(k) == []
    ensures Silent(OwnAt(moments, session))
  {
    forall k: nat, token: Token
      ensures OwnAt(moments, session)(k)(token).None?
    {
      assert OwnAt(moments, session)(k)(token) == Found(moments(k + 1), token, session);
    }
  }

  /**
   * However the vault changes during the walk, the middleware answers exactly
   * when it held something at the start and one of the session's own placeholders
   * in reach is live when it is its turn; it answers with every such one replaced,
   * and otherwise the request needed no change, or the vault was empty when asked.
   */
  lemma MiddlewareIsExact(moments: Moments, session: string, request: Node)
    requires request.Mapping?
    ensures var live, r := OwnAt(moments, session), Middleware(moments, session, request);
      && (r.Some? <==> moments(0) != [] && Occurs(request, live, 0, 0))
      && (r.Some? ==> r.value == Everywhere(request, live, 0, 0))
      && (r.None? ==> moments(0) == [] || Everywhere(request, live, 0, 0) == request)
  {
    hide Walk, Everywhere, Occurs;
    WalkIsEverywhere(request, OwnAt(moments, session), 0, 0);
    if session == "" {
      NobodysLive(moments, session);
      NothingOccurs(request, OwnAt(moments, session), 0, 0);
    }
  }

  /** A vault that stays empty has nothing to put back: skipping the walk changes nothing. */
  lemma EmptyVaultChangesNothing(moments: Moments, session: string, request: Node)
    requires request.Mapping? && forall k :: moments(k) == []
    ensures Middleware(moments, session, request).None? && Everywhere(request, OwnAt(moments, session), 0, 0) == request
  {
    hide Walk, Everywhere, Occurs;
    WalkIsEverywhere(request, OwnAt(moments, session), 0, 0);
    NobodysLive(moments, session);
    NothingOccurs(request, OwnAt(moments, session), 0, 0);
  }
}
