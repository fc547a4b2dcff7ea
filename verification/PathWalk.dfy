/** path_walk: follow a path name through directories and symbolic links. */
module PathWalk {
  import opened Options

  type Node = nat

  type Name = string

  // A symbolic link's value, split at its slashes.
  datatype Target = Target(absolute: bool, parts: seq<Name>)

  // What _lookup gives: an error, or a node or nothing.
  datatype Found = Failed(code: int) | Entry(node: Option<Node>)

  // The tree as it is during the walk.
  datatype Fs = Fs(root: Node, lookup: (Node, Name) -> Found, link: Node -> Option<Target>)

  // Where a walk ends, and how many links it has followed.
  datatype Outcome = Error(code: int) | Loop | NoEntry | At(node: Node, links: nat)

  /** The loop of path_walk: the path is rewritten at each link, and i is the position in it. */
  method Walk(fs: Fs, cwd: Node, absolute: bool, parts: seq<Name>, followsym: bool, max: nat) returns (r: Outcome)
    ensures r == Posix(fs, if absolute then fs.root else cwd, parts, 0, followsym, max)
  {
    RewriteIsPosix(fs, if absolute then fs.root else cwd, parts, 0, followsym, max);
    var path := parts;
    var cur: Option<Node> := Some(if absolute then fs.root else cwd);
    var symlinks := 0;
    var i := 0;
    while i < |path| && cur.Some?
      invariant i <= |path| && symlinks <= max
      invariant cur.Some? ==>
        Resolve(fs, cur.value, path[i..], symlinks, followsym, max)
          == Resolve(fs, if absolute then fs.root else cwd, parts, 0, followsym, max)
      invariant cur.None? ==> Resolve(fs, if absolute then fs.root else cwd, parts, 0, followsym, max) == NoEntry
      decreases cur.Some?, max - symlinks, |path| - i
    {
      var found := fs.lookup(cur.value, path[i]);
      assert path[i..][0] == path[i] && path[i..][1..] == path[i + 1..];
      if found.Failed? {
        return Error(found.code);
      }
      var next := found.node;
      if next.Some? && fs.link(next.value).Some? {
        var target := fs.link(next.value).value;
        symlinks := symlinks + 1;
        if symlinks > max {
          return Loop;
        }
        if i < |path| - 1 {
          // a link to a directory: replace what is consumed
          path := target.parts + path[i + 1..];
          i := 0;
          assert path[i..] == path;
          if target.absolute { cur := Some(fs.root); }
          continue;
        } else if followsym {
          if target.absolute {
            path := target.parts;
            i := 0;
            cur := Some(fs.root);
            assert path[i..] == path;
            assert target.parts + [] == target.parts;
          } else {
            path := path[..|path| - 1] + target.parts;
            assert path[i..] == target.parts + [];
          }
          continue;
        }
      }
      cur := next;
      i := i + 1;
    }
    if cur.None? {
      return NoEntry;
    }
    return At(cur.value, symlinks);
  }

  // The same, looking only at what is left of the path.
  function Resolve(fs: Fs, cur: Node, parts: seq<Name>, links: nat, followsym: bool, max: nat): Outcome
    requires links <= max
    decreases max - links, |parts|
  {
    if parts == [] then At(cur, links)
    else
      var found := fs.lookup(cur, parts[0]);
      if found.Failed? then Error(found.code)
      else if found.node.None? then NoEntry
      else
        var next := found.node.value;
        var link := fs.link(next);
        if link.Some? && links + 1 > max then Loop
        else if link.Some? && (|parts| > 1 || followsym) then
          Resolve(fs, if link.value.absolute then fs.root else cur, link.value.parts + parts[1..], links + 1,
                  followsym, max)
        else if link.Some? then At(next, links + 1)
        else Resolve(fs, next, parts[1..], links, followsym, max)
  }

  // Carry on from where a walk has ended.
  function Then(fs: Fs, first: Outcome, rest: seq<Name>, followsym: bool, max: nat): Outcome
    requires first.At? ==> first.links <= max
  {
    if first.At? then Resolve(fs, first.node, rest, first.links, followsym, max) else first
  }

  lemma {:induction false} LinksGrow(fs: Fs, cur: Node, parts: seq<Name>, links: nat, followsym: bool, max: nat)
    requires links <= max
    ensures var r := Resolve(fs, cur, parts, links, followsym, max); r.At? ==> links <= r.links <= max
    decreases max - links, |parts|
  {
    if parts != [] {
      var found := fs.lookup(cur, parts[0]);
      if found.Entry? && found.node.Some? {
        var link := fs.link(found.node.value);
        if link.None? {
          LinksGrow(fs, found.node.value, parts[1..], links, followsym, max);
        } else if links < max {
          LinksGrow(fs, if link.value.absolute then fs.root else cur, link.value.parts + parts[1..], links + 1,
                    followsym, max);
        }
      }
    }
  }

  /** A path is walked by walking its first part, following every link, and then the rest. */
  lemma {:induction false} WalkAppend(fs: Fs, cur: Node, a: seq<Name>, b: seq<Name>, links: nat, followsym: bool,
                                      max: nat)
    requires links <= max && b != []
    ensures var first := Resolve(fs, cur, a, links, true, max);
      && (first.At? ==> first.links <= max)
      && Resolve(fs, cur, a + b, links, followsym, max) == Then(fs, first, b, followsym, max)
    decreases max - links, |a|
  {
    LinksGrow(fs, cur, a, links, true, max);
    if a == [] {
      assert a + b == b;
    } else {
      assert (a + b)[0] == a[0] && (a + b)[1..] == a[1..] + b;
      var found := fs.lookup(cur, a[0]);
      if found.Entry? && found.node.Some? {
        var link := fs.link(found.node.value);
        if link.None? {
          WalkAppend(fs, found.node.value, a[1..], b, links, followsym, max);
        } else if links < max {
          var start := if link.value.absolute then fs.root else cur;
          assert link.value.parts + (a[1..] + b) == (link.value.parts + a[1..]) + b;
          WalkAppend(fs, start, link.value.parts + a[1..], b, links + 1, followsym, max);
        }
      }
    }
  }

  /** Pathname resolution as POSIX puts it: each component in turn, where a link that is to be
      followed stands for the node its own value resolves to, from the directory it is in. */
  function Posix(fs: Fs, cur: Node, parts: seq<Name>, links: nat, followsym: bool, max: nat): (r: Outcome)
    requires links <= max
    ensures r.At? ==> links <= r.links <= max
    decreases max - links, |parts|
  {
    if parts == [] then At(cur, links)
    else
      match fs.lookup(cur, parts[0])
      case Failed(code) => Error(code)
      case Entry(None) => NoEntry
      case Entry(Some(next)) =>
        var link := fs.link(next);
        if link.None? then Posix(fs, next, parts[1..], links, followsym, max)
        else if links == max then Loop
        else if |parts| == 1 && !followsym then At(next, links + 1)
        else
          var target := Posix(fs, if link.value.absolute then fs.root else cur, link.value.parts, links + 1, true, max);
          if target.At? then Posix(fs, target.node, parts[1..], target.links, followsym, max) else target
  }

  /** Rewriting the path at each link comes to the same as resolving the link's value first. */
  lemma {:induction false} RewriteIsPosix(fs: Fs, cur: Node, parts: seq<Name>, links: nat, followsym: bool, max: nat)
    requires links <= max
    ensures Resolve(fs, cur, parts, links, followsym, max) == Posix(fs, cur, parts, links, followsym, max)
    decreases max - links, |parts|
  {
    if parts != [] {
      var found := fs.lookup(cur, parts[0]);
      if found.Entry? && found.node.Some? {
        var link := fs.link(found.node.value);
        if link.None? {
          RewriteIsPosix(fs, found.node.value, parts[1..], links, followsym, max);
        } else if links < max && (|parts| > 1 || followsym) {
          FollowIsPosix(fs, if link.value.absolute then fs.root else cur, link.value.parts, parts[1..], links + 1,
                        followsym, max);
        }
      }
    }
  }

  lemma {:induction false} FollowIsPosix(fs: Fs, start: Node, value: seq<Name>, rest: seq<Name>, links: nat,
                                         followsym: bool, max: nat)
    requires links <= max && (rest != [] || followsym)
    ensures var target := Posix(fs, start, value, links, true, max);
      Resolve(fs, start, value + rest, links, followsym, max)
        == if target.At? then Posix(fs, target.node, rest, target.links, followsym, max) else target
    decreases max - links, |value| + |rest| + 1
  {
    RewriteIsPosix(fs, start, value, links, true, max);
    var target := Posix(fs, start, value, links, true, max);
    if rest == [] {
      assert value + rest == value;
    } else {
      WalkAppend(fs, start, value, rest, links, followsym, max);
      if target.At? { RewriteIsPosix(fs, target.node, rest, target.links, followsym, max); }
    }
  }

  /** With followsym a walk from something that is not a link never ends at one. */
  lemma {:induction false} FollowedIsNoLink(fs: Fs, cur: Node, parts: seq<Name>, links: nat, max: nat)
    requires links <= max && fs.link(cur).None? && fs.link(fs.root).None?
    ensures var r := Resolve(fs, cur, parts, links, true, max); r.At? ==> fs.link(r.node).None?
    decreases max - links, |parts|
  {
    if parts != [] {
      var found := fs.lookup(cur, parts[0]);
      if found.Entry? && found.node.Some? {
        var link := fs.link(found.node.value);
        if link.None? {
          FollowedIsNoLink(fs, found.node.value, parts[1..], links, max);
        } else if links < max {
          FollowedIsNoLink(fs, if link.value.absolute then fs.root else cur, link.value.parts + parts[1..], links + 1,
                           max);
        }
      }
    }
  }

  /** Without it only the last component may: the walk is that of the path up to there, and one
      lookup. */
  lemma LastNotFollowed(fs: Fs, cur: Node, dirs: seq<Name>, last: Name, links: nat, max: nat)
    requires links <= max
    ensures var d := Resolve(fs, cur, dirs, links, true, max);
      (d.At? ==> d.links <= max)
      && Resolve(fs, cur, dirs + [last], links, false, max) == (if !d.At? then d else
        match fs.lookup(d.node, last)
        case Failed(code) => Error(code)
        case Entry(None) => NoEntry
        case Entry(Some(n)) => if fs.link(n).None? then At(n, d.links) else if d.links == max then Loop
          else At(n, d.links + 1))
  {
    WalkAppend(fs, cur, dirs, [last], links, false, max);
    var d := Resolve(fs, cur, dirs, links, true, max);
    if d.At? {
      var found := fs.lookup(d.node, last);
      assert found.Entry? && found.node.Some? ==>
        Resolve(fs, found.node.value, [last][1..], d.links, false, max) == At(found.node.value, d.links);
    }
  }
}
