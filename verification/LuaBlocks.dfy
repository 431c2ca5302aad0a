/**
 Code that the reader keeps as text. A function is kept up to the word that closes it, however deep its blocks are
 nested, since the reader counts the words that open and close blocks. Calls are kept with the calls chained to them.
 */
module LuaBlocks {
  import opened LuaTokens
  import opened LuaTerms
  import opened Options

  // --------------------------------------------------------------------------------
  // Functions
  // --------------------------------------------------------------------------------

  /** A token, or a block: its opening word, a loop's head, the body and the closing word. */
  datatype Block = Plain(token: Token) | Nest(opener: Token, head: seq<Token>, body: seq<Block>, closer: Token)

  predicate IsWord(t: Token, words: set<string>) {
    t.kind.Name? && t.text in words
  }

  /** A loop's head ends at its first `do`; the other blocks have none. */
  predicate ProperHead(opener: Token, head: seq<Token>) {
    if IsWord(opener, {"while", "for"})
    then head != [] && head[|head| - 1].text == "do" && forall k :: 0 <= k < |head| - 1 ==> head[k].text != "do"
    else IsWord(opener, {"function", "if", "do", "repeat"}) && head == []
  }

  /** Only a repeated block is closed by `until`, and words that open or close a block stand nowhere else. */
  predicate Proper(b: Block)
    decreases b
  {
    match b
    case Plain(t) => !IsWord(t, {"function", "if", "do", "while", "for", "repeat", "end", "until"})
    case Nest(opener, head, body, closer) =>
      && ProperHead(opener, head)
      && IsWord(closer, if opener.text == "repeat" then {"until"} else {"end"})
      && forall k :: 0 <= k < |body| ==> Proper(body[k])
  }

  /** How many tokens a block has. */
  function Size(b: Block): (n: nat)
    ensures n > 0
    decreases b, 0
  {
    match b
    case Plain(_) => 1
    case Nest(_, head, body, _) => 2 + |head| + Sizes(body)
  }

  function Sizes(bs: seq<Block>): nat
    decreases bs, 0
  {
    if bs == [] then 0 else Size(bs[0]) + Sizes(bs[1..])
  }

  predicate SeesToken(src: Source, i: nat, t: Token) {
    i < |src.tokens| && src.tokens[i] == t
  }

  predicate SeesAll(src: Source, i: nat, ts: seq<Token>) {
    forall k :: 0 <= k < |ts| ==> SeesToken(src, i + k, ts[k])
  }

  /** The block's tokens stand in the source from i on. */
  predicate StandsAt(src: Source, i: nat, b: Block)
    decreases b, 0
  {
    match b
    case Plain(t) => SeesToken(src, i, t)
    case Nest(opener, head, body, closer) =>
      && SeesToken(src, i, opener) && SeesAll(src, i + 1, head) && AllStandAt(src, i + 1 + |head|, body)
      && SeesToken(src, i + 1 + |head| + Sizes(body), closer)
  }

  predicate AllStandAt(src: Source, i: nat, bs: seq<Block>)
    decreases bs, 0
  {
    i <= |src.tokens| && (bs != [] ==> StandsAt(src, i, bs[0]) && AllStandAt(src, i + Size(bs[0]), bs[1..]))
  }

  /** Looking for a `do` stops behind the first one. */
  lemma {:induction false} DoFound(src: Source, i: nat, head: seq<Token>)
    requires SeesAll(src, i, head) && head != [] && head[|head| - 1].text == "do"
    requires forall k :: 0 <= k < |head| - 1 ==> head[k].text != "do"
    ensures i + |head| <= |src.tokens| && DoEnd(src, i) == Some(i + |head|)
    decreases |head|
  {
    assert SeesToken(src, i + (|head| - 1), head[|head| - 1]);
    assert SeesToken(src, i + 0, head[0]);
    if |head| > 1 {
      forall k | 0 <= k < |head| - 1 ensures SeesToken(src, i + 1 + k, head[1..][k]) {
        assert SeesToken(src, i + (k + 1), head[k + 1]);
      }
      DoFound(src, i + 1, head[1..]);
    }
  }

  /** A word that opens a block, with the head of a loop, makes the reader count one more. */
  lemma Opens(src: Source, i: nat, opener: Token, head: seq<Token>, depth: int)
    requires SeesToken(src, i, opener) && SeesAll(src, i + 1, head) && ProperHead(opener, head)
    ensures i + 1 + |head| <= |src.tokens| && BodyEnd(src, i, depth) == BodyEnd(src, i + 1 + |head|, depth + 1)
  {
    if IsWord(opener, {"while", "for"}) {
      DoFound(src, i + 1, head);
    }
  }

  /** A word that closes one makes it count one less, and ends the outermost block. */
  lemma Closes(src: Source, i: nat, closer: Token, depth: int)
    requires SeesToken(src, i, closer) && IsWord(closer, {"end", "until"})
    ensures BodyEnd(src, i, depth) == if depth == 1 then Some(i + 1) else BodyEnd(src, i + 1, depth - 1)
  {
  }

  /** Inside a block, the reader comes back to the same count behind everything that is properly nested. */
  lemma {:induction false} BlockPasses(src: Source, i: nat, b: Block, depth: int)
    requires Proper(b) && StandsAt(src, i, b) && depth > 0
    ensures i + Size(b) <= |src.tokens| && BodyEnd(src, i, depth) == BodyEnd(src, i + Size(b), depth)
    decreases b, 0
  {
    match b
    case Plain(t) =>
    case Nest(opener, head, body, closer) =>
      Opens(src, i, opener, head, depth);
      BlocksPass(src, i + 1 + |head|, body, depth + 1);
      Closes(src, i + 1 + |head| + Sizes(body), closer, depth + 1);
  }

  lemma {:induction false} BlocksPass(src: Source, i: nat, bs: seq<Block>, depth: int)
    requires (forall k :: 0 <= k < |bs| ==> Proper(bs[k])) && AllStandAt(src, i, bs) && depth > 0
    ensures i + Sizes(bs) <= |src.tokens| && BodyEnd(src, i, depth) == BodyEnd(src, i + Sizes(bs), depth)
    decreases bs, 0
  {
    if bs != [] {
      BlockPasses(src, i, bs[0], depth);
      BlocksPass(src, i + Size(bs[0]), bs[1..], depth);
    }
  }

  /** A properly nested function is kept as the source text from its first word to the one that closes it, whatever follows. */
  lemma FunctionKept(src: Source, i: nat, f: Block)
    requires Proper(f) && f.Nest? && f.opener.text == "function" && StandsAt(src, i, f)
    ensures i + Size(f) <= |src.tokens| && TermAt(src, i) == Ok((Code(Between(src, i, i + Size(f))), i + Size(f)))
  {
    var k := i + 1 + |f.head| + Sizes(f.body);
    Opens(src, i, f.opener, f.head, 0);
    BlocksPass(src, i + 1 + |f.head|, f.body, 1);
    Closes(src, k, f.closer, 1);
    assert BodyEnd(src, i, 0) == Some(k + 1);
  }

  // --------------------------------------------------------------------------------
  // Calls
  // --------------------------------------------------------------------------------

  /** One argument without brackets, or brackets of one kind around tokens that are none of that kind. */
  datatype Arguments = Lone(token: Token) | Enclosed(opener: string, inner: seq<Token>, closer: string)

  predicate ProperArguments(a: Arguments) {
    match a
    case Lone(t) => (t.kind.StringLit? || t.kind.LongString?) && t.text != "(" && t.text != "{"
    case Enclosed(opener, inner, closer) =>
      && ((opener == "(" && closer == ")") || (opener == "{" && closer == "}"))
      && forall k :: 0 <= k < |inner| ==> inner[k].text != opener && inner[k].text != closer
  }

  function Width(a: Arguments): nat {
    match a case Lone(_) => 1 case Enclosed(_, inner, _) => |inner| + 2
  }

  predicate ArgumentsAt(src: Source, i: nat, a: Arguments) {
    match a
    case Lone(t) => SeesToken(src, i, t)
    case Enclosed(opener, inner, closer) => src.Sees(i, opener) && SeesAll(src, i + 1, inner) && src.Sees(i + 1 + |inner|, closer)
  }

  lemma {:induction false} InnerPasses(src: Source, i: nat, inner: seq<Token>, opener: string, closer: string, depth: int)
    requires i <= |src.tokens| && SeesAll(src, i, inner)
    requires forall k :: 0 <= k < |inner| ==> inner[k].text != opener && inner[k].text != closer
    ensures i + |inner| <= |src.tokens|
    ensures CloseEnd(src, i, opener, closer, depth) == CloseEnd(src, i + |inner|, opener, closer, depth)
    decreases |inner|
  {
    if inner != [] {
      assert SeesToken(src, i + 0, inner[0]);
      forall k | 0 <= k < |inner| - 1 ensures SeesToken(src, i + 1 + k, inner[1..][k]) {
        assert SeesToken(src, i + (k + 1), inner[k + 1]);
      }
      InnerPasses(src, i + 1, inner[1..], opener, closer, depth);
    }
  }

  /** Arguments are taken up to the bracket that matches, or up to the one token that they are. */
  lemma ArgumentsTaken(src: Source, i: nat, a: Arguments)
    requires ProperArguments(a) && ArgumentsAt(src, i, a)
    ensures OpensArgumentsAt(src, i) && i < |src.tokens| && ArgumentsEnd(src, i) == Some(i + Width(a))
  {
    if a.Enclosed? {
      InnerPasses(src, i + 1, a.inner, a.opener, a.closer, 1);
    }
  }

  /** A further call on what a call returned. */
  datatype Link = Link(dot: string, name: Token, arguments: Arguments)

  predicate ProperLink(l: Link) {
    (l.dot == "." || l.dot == ":") && l.name.kind.Name? && ProperArguments(l.arguments)
  }

  function Widths(links: seq<Link>): nat {
    if links == [] then 0 else 2 + Width(links[0].arguments) + Widths(links[1..])
  }

  predicate LinksAt(src: Source, i: nat, links: seq<Link>)
    decreases |links|
  {
    links != [] ==>
      && src.Sees(i, links[0].dot) && SeesToken(src, i + 1, links[0].name) && ArgumentsAt(src, i + 2, links[0].arguments)
      && LinksAt(src, i + 2 + Width(links[0].arguments), links[1..])
  }

  lemma {:induction false} ChainTaken(src: Source, i: nat, links: seq<Link>)
    requires (forall k :: 0 <= k < |links| ==> ProperLink(links[k])) && LinksAt(src, i, links)
    requires i <= |src.tokens| && !SeesMember(src, i + Widths(links))
    ensures Chain(src, i, i) == Some((i + Widths(links), i + Widths(links)))
    decreases |links|
  {
    if links != [] {
      var j := i + 2 + Width(links[0].arguments);
      ArgumentsTaken(src, i + 2, links[0].arguments);
      ChainTaken(src, j, links[1..]);
    }
  }

  /** A call is kept as the source text from its name to the last arguments of the chain, whatever the arguments are. */
  lemma CallKept(src: Source, start: nat, i: nat, a: Arguments, links: seq<Link>)
    requires start < i && ProperArguments(a) && (forall k :: 0 <= k < |links| ==> ProperLink(links[k]))
    requires ArgumentsAt(src, i, a) && LinksAt(src, i + Width(a), links)
    requires !SeesMember(src, i + Width(a) + Widths(links))
    ensures var end := i + Width(a) + Widths(links);
            i < end <= |src.tokens| && CallAt(src, start, i) == Ok((Code(Between(src, start, end)), end))
  {
    ArgumentsTaken(src, i, a);
    ChainTaken(src, i + Width(a), links);
  }

  /** So a name with arguments behind it, be it dotted or not, is read as the text of its call. */
  lemma NamedCallKept(src: Source, i: nat, j: nat, a: Arguments, links: seq<Link>)
    requires i < |src.tokens| && src.tokens[i].kind.Name? && src.tokens[i].text !in {"{", "true", "false", "nil", "-"}
    requires j == PartsAt(src, i + 1).1
    requires ProperArguments(a) && (forall k :: 0 <= k < |links| ==> ProperLink(links[k]))
    requires ArgumentsAt(src, j, a) && LinksAt(src, j + Width(a), links)
    requires !SeesMember(src, j + Width(a) + Widths(links))
    ensures var end := j + Width(a) + Widths(links);
            i < end <= |src.tokens| && PlainAt(src, i) == Ok((Code(Between(src, i, end)), end))
  {
    ArgumentsTaken(src, j, a);
    CallKept(src, i, j, a, links);
    assert NameAt(src, i) == CallAt(src, i, j);
  }
}
