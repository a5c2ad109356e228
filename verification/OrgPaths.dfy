/**
  Materialised paths: sequences of ids written as one string with '/' between them.
*/
module OrgPaths {

  predicate SlashFree(id: string) {
    '/' !in id
  }

  function Join(ids: seq<string>): string {
    if |ids| == 0 then ""
    else if |ids| == 1 then ids[0]
    else ids[0] + "/" + Join(ids[1..])
  }

  /** Splits at every '/'. The result always has at least one part. */
  function Split(s: string): (parts: seq<string>)
    ensures |parts| >= 1
  {
    if s == "" then [""]
    else if s[0] == '/' then [""] + Split(s[1..])
    else
      var parts := Split(s[1..]);
      [[s[0]] + parts[0]] + parts[1..]
  }

  function CountSlashes(s: string): nat {
    if s == "" then 0 else (if s[0] == '/' then 1 else 0) + CountSlashes(s[1..])
  }

  /** The test of the scope queries: the path itself, or anything that starts with it and a '/'. */
  predicate AtOrBelow(path: string, top: string) {
    path == top || top + "/" <= path
  }

  lemma {:induction false} SplitSlashFree(id: string)
    requires SlashFree(id)
    ensures Split(id) == [id]
  {
    if id != "" {
      assert id[0] in id && id == [id[0]] + id[1..];
      SplitSlashFree(id[1..]);
    }
  }

  lemma {:induction false} SplitConcat(s: string, rest: string)
    ensures Split(s + "/" + rest) == Split(s) + Split(rest)
    decreases |s|
  {
    var whole := s + "/" + rest;
    if s == "" {
      assert whole[1..] == rest;
    } else {
      assert whole[1..] == s[1..] + "/" + rest;
      SplitConcat(s[1..], rest);
    }
  }

  /** Splitting a joined path gives back the ids. */
  lemma {:induction false} SplitJoin(ids: seq<string>)
    requires ids != [] && forall id :: id in ids ==> SlashFree(id)
    ensures Split(Join(ids)) == ids
    decreases |ids|
  {
    SplitSlashFree(ids[0]);
    if |ids| > 1 {
      SplitConcat(ids[0], Join(ids[1..]));
      SplitJoin(ids[1..]);
    }
  }

  lemma {:induction false} JoinSnoc(ids: seq<string>, id: string)
    requires ids != []
    ensures Join(ids + [id]) == Join(ids) + "/" + id
    decreases |ids|
  {
    if |ids| == 1 {
      assert (ids + [id])[1..] == [id];
    } else {
      assert (ids + [id])[1..] == ids[1..] + [id];
      JoinSnoc(ids[1..], id);
    }
  }

  lemma {:induction false} JoinConcat(xs: seq<string>, ys: seq<string>)
    requires xs != [] && ys != []
    ensures Join(xs + ys) == Join(xs) + "/" + Join(ys)
    decreases |xs|
  {
    assert (xs + ys)[1..] == xs[1..] + ys;
    if |xs| > 1 {
      JoinConcat(xs[1..], ys);
    }
  }

  /** On strings, "at or below" is exactly "starts with the same ids". */
  lemma {:induction false} AtOrBelowIsPrefix(below: seq<string>, top: seq<string>)
    requires below != [] && top != []
    requires forall id :: id in below || id in top ==> SlashFree(id)
    ensures AtOrBelow(Join(below), Join(top)) <==> top <= below
  {
    SplitJoin(below);
    SplitJoin(top);
    if top <= below && top != below {
      assert below == top + below[|top|..];
      JoinConcat(top, below[|top|..]);
    }
    if Join(top) + "/" <= Join(below) {
      var rest := Join(below)[|Join(top)| + 1..];
      assert Join(below) == Join(top) + "/" + rest;
      SplitConcat(Join(top), rest);
    }
  }

  /** Without a '/' in the last id, a child path is below `top` only when its parent path is at or below it. */
  lemma {:induction false} BelowChildPath(parent: string, id: string, top: string)
    requires SlashFree(id)
    ensures top + "/" <= parent + "/" + id <==> AtOrBelow(parent, top)
  {
    var path := parent + "/" + id;
    if top + "/" <= path {
      assert path[|top|] == (top + "/")[|top|] == '/';
      assert forall i :: |parent| < i < |path| ==> path[i] == id[i - |parent| - 1];
      assert |top| <= |parent|;
      assert top == path[..|top|] == parent[..|top|];
      if |top| < |parent| {
        assert parent[|top|] == path[|top|] == '/';
        assert parent[..|top| + 1] == top + "/";
      }
    }
    if top + "/" <= parent {
      assert path[..|top| + 1] == parent[..|top| + 1];
    }
  }

  function LastPart(s: string): string {
    Split(s)[|Split(s)| - 1]
  }

  lemma {:induction false} LastPartOfChild(parent: string, id: string)
    requires SlashFree(id)
    ensures LastPart(parent + "/" + id) == id
  {
    SplitConcat(parent, id);
    SplitSlashFree(id);
  }

  lemma {:induction false} CountConcat(s: string, t: string)
    ensures CountSlashes(s + t) == CountSlashes(s) + CountSlashes(t)
    decreases |s|
  {
    if s == "" {
      assert s + t == t;
    } else {
      assert (s + t)[1..] == s[1..] + t;
      CountConcat(s[1..], t);
    }
  }

  lemma {:induction false} CountSlashFree(id: string)
    requires SlashFree(id)
    ensures CountSlashes(id) == 0
  {
    if id != "" {
      assert id[0] in id;
      CountSlashFree(id[1..]);
    }
  }

  lemma {:induction false} CountChildPath(parent: string, id: string)
    requires SlashFree(id)
    ensures CountSlashes(parent + "/" + id) == CountSlashes(parent) + 1
  {
    CountConcat(parent + "/", id);
    CountConcat(parent, "/");
    CountSlashFree(id);
  }
}
