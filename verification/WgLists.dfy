/** What survives of values and lists when they are written to one line and read back. */
module WgLists {
  import opened Text
  import opened WgLines
  import opened WgConfig

  // ---- Values ------------------------------------------------------------------------

  predicate CleanValue(v: string) {
    Trimmed(v) && Unmarked(v)
  }

  lemma ReadClean(v: string)
    requires CleanValue(v)
    ensures ReadValue(v) == v
  {
    TrimTrimmed(v);
  }

  lemma UnmarkedPart(v: string, a: string, w: string, b: string)
    requires v == a + w + b && Unmarked(v)
    ensures Unmarked(w)
  {
    assert forall k :: 0 <= k < |w| ==> v[|a| + k] == w[k];
  }

  lemma TrimUnmarked(v: string)
    requires Unmarked(v)
    ensures Unmarked(Trim(v))
  {
    var a, b := TrimParts(v);
    UnmarkedPart(v, a, Trim(v), b);
  }

  /** Whatever is read back is clean. */
  lemma ReadIsClean(v: string)
    ensures CleanValue(ReadValue(v))
  {
    var t := Trim(v);
    if MarkAt(t) < |t| {
      TrimUnmarked(t[..MarkAt(t)]);
    } else {
      assert t[..MarkAt(t)] == t;
    }
  }

  /** A value comes back exactly when it is clean. */
  lemma ReadsBackIff(v: string)
    ensures ReadValue(v) == v <==> CleanValue(v)
  {
    ReadIsClean(v);
    if CleanValue(v) {
      ReadClean(v);
    }
  }

  // ---- Lists -------------------------------------------------------------------------

  predicate SoundItem(x: string) {
    x != "" && CleanValue(x) && ',' !in x
  }

  predicate SoundItems(items: seq<string>) {
    forall i :: 0 <= i < |items| ==> SoundItem(items[i])
  }

  /** A later item may not start with '#': with the ", " before it, that is a comment. */
  predicate NoLaterHash(items: seq<string>) {
    forall i :: 0 < i < |items| && items[i] != "" ==> items[i][0] != '#'
  }

  predicate CleanItems(items: seq<string>) {
    SoundItems(items) && NoLaterHash(items)
  }

  /** What a written list reads as. */
  function ReadItems(items: seq<string>): seq<string> {
    if items == [] then [] else ReadList(ReadValue(Join(items, ", ")))
  }

  /** The text before the comment, if a later item starts one. */
  function KeptText(items: seq<string>): string
    requires items != [] && SoundItems(items)
  {
    if |items| == 1 then items[0]
    else if items[1][0] == '#' then items[0] + ","
    else items[0] + ", " + KeptText(items[1..])
  }

  function Kept(items: seq<string>): (r: seq<string>)
    requires items != [] && SoundItems(items)
    ensures r != [] && r <= items && (r == items <==> NoLaterHash(items))
  {
    if |items| == 1 || items[1][0] == '#' then [items[0]]
    else
      var rest := Kept(items[1..]);
      assert forall i :: 0 <= i < |items[1..]| ==> items[1..][i] == items[i + 1];
      [items[0]] + rest
  }

  lemma ReadSingle(item: string)
    requires SoundItem(item)
    ensures ReadList(item) == [item]
  {
    SplitNone(item, ',');
    TrimTrimmed(item);
    assert [item][1..] == [];
    assert Items([item]) == [item] + Items([]);
  }

  lemma ReadFirst(item: string, rest: string, v: string)
    requires SoundItem(item) && v == item + [','] + rest
    ensures ReadList(v) == [item] + ReadList(rest)
  {
    SplitCons(item, ',', rest);
    TrimTrimmed(item);
    var tail := Split(rest, ',');
    assert ([item] + tail)[1..] == tail;
  }

  lemma CommaSpace(item: string, rest: string)
    ensures item + ", " + rest == item + [','] + (" " + rest)
    ensures item + "," == item + [','] + ""
  {
  }

  lemma SoundRest(items: seq<string>)
    requires |items| > 1 && SoundItems(items)
    ensures SoundItems(items[1..])
  {
    assert forall i :: 0 <= i < |items[1..]| ==> items[1..][i] == items[i + 1];
  }

  lemma {:induction false} ReadKeptText(items: seq<string>)
    requires items != [] && SoundItems(items)
    ensures ReadList(KeptText(items)) == Kept(items)
  {
    if |items| == 1 {
      ReadSingle(items[0]);
    } else if items[1][0] == '#' {
      CommaSpace(items[0], "");
      ReadFirst(items[0], "", items[0] + ",");
    } else {
      SoundRest(items);
      var rest := KeptText(items[1..]);
      ReadKeptText(items[1..]);
      CommaSpace(items[0], rest);
      ReadFirst(items[0], " " + rest, items[0] + ", " + rest);
    }
  }

  // ---- Where the comment starts ---------------------------------------------------------

  lemma {:induction false} MarkIs(v: string, m: nat)
    requires m <= |v| && (m < |v| ==> m + 1 < |v| && v[m] == ' ' && v[m + 1] == '#')
    requires forall k :: 0 <= k < m && k + 1 < |v| ==> !(v[k] == ' ' && v[k + 1] == '#')
    ensures MarkAt(v) == m
  {
  }

  /** Position of the comment in item, ", " and rest. */
  function MarkBeyond(item: string, rest: string): nat {
    if rest != "" && rest[0] == '#' then |item| + 1 else |item| + 2 + MarkAt(rest)
  }

  lemma {:induction false} MarkOfJoin(item: string, rest: string, v: string)
    requires SoundItem(item) && v == item + ", " + rest && rest != ""
    ensures MarkAt(v) == MarkBeyond(item, rest)
  {
    var n, m := |item|, MarkBeyond(item, rest);
    assert v[n] == ',' && v[n + 1] == ' ' && v[n + 2] == rest[0];
    assert forall k :: 0 <= k < n ==> v[k] == item[k];
    assert forall k :: n + 2 <= k < |v| ==> v[k] == rest[k - n - 2];
    forall k | 0 <= k < m && k + 1 < |v| ensures !(v[k] == ' ' && v[k + 1] == '#') {
      if k >= n + 2 {
        assert v[k] == rest[k - n - 2] && v[k + 1] == rest[k - n - 1];
      }
    }
    MarkIs(v, m);
  }

  lemma {:induction false} JoinKept(items: seq<string>)
    requires items != [] && SoundItems(items)
    ensures var v := Join(items, ", "); v != "" && v[0] == items[0][0] && v[..MarkAt(v)] == KeptText(items)
  {
    if |items| == 1 {
      ReadClean(items[0]);
      MarkIs(items[0], |items[0]|);
    } else {
      SoundRest(items);
      JoinKept(items[1..]);
      JoinKeptMore(items, items[1..], Join(items[1..], ", "));
    }
  }

  lemma {:induction false} JoinKeptMore(items: seq<string>, tail: seq<string>, rest: string)
    requires |items| > 1 && SoundItems(items) && tail == items[1..] && SoundItems(tail) && rest == Join(tail, ", ")
    requires SoundItem(tail[0]) && rest != "" && rest[0] == tail[0][0] && rest[..MarkAt(rest)] == KeptText(tail)
    ensures var v := Join(items, ", "); v != "" && v[0] == items[0][0] && v[..MarkAt(v)] == KeptText(items)
  {
    MarkOfJoin(items[0], rest, Join(items, ", "));
  }

  lemma {:induction false} JoinTrimmed(items: seq<string>)
    requires items != [] && SoundItems(items)
    ensures var v := Join(items, ", "); v != "" && Trimmed(v)
  {
    if |items| > 1 {
      SoundRest(items);
      JoinTrimmed(items[1..]);
    }
  }

  lemma {:induction false} KeptTrimmed(items: seq<string>)
    requires items != [] && SoundItems(items)
    ensures KeptText(items) != "" && Trimmed(KeptText(items))
  {
    if |items| > 1 {
      if items[1][0] == '#' {
        var v := items[0] + ",";
        assert v[0] == items[0][0] && v[|v| - 1] == ',';
      } else {
        SoundRest(items);
        KeptTrimmed(items[1..]);
      }
    }
  }

  lemma {:induction false} ReadUpToMark(v: string, kept: string)
    requires Trimmed(v) && Trimmed(kept) && v[..MarkAt(v)] == kept
    ensures ReadValue(v) == kept
  {
    TrimTrimmed(v);
    TrimTrimmed(kept);
  }

  /** Sound items read back up to the first one that starts a comment. */
  lemma {:induction false} ReadItemsKept(items: seq<string>)
    requires items != [] && SoundItems(items)
    ensures ReadItems(items) == Kept(items)
  {
    JoinTrimmed(items);
    JoinKept(items);
    KeptTrimmed(items);
    ReadUpToMark(Join(items, ", "), KeptText(items));
    ReadKeptText(items);
  }

  // ---- Exactly the clean lists come back ---------------------------------------------------

  lemma {:induction false} PartsUnmarked(v: string)
    requires Unmarked(v)
    ensures forall i :: 0 <= i < |Split(v, ',')| ==> Unmarked(Split(v, ',')[i])
  {
    if v != "" {
      UnmarkedPart(v, [v[0]], v[1..], "");
      PartsUnmarked(v[1..]);
      var rest := Split(v[1..], ',');
      if v[0] != ',' {
        FirstPart(v[1..]);
        var first := [v[0]] + rest[0];
        assert v == [] + first + v[|first|..];
        UnmarkedPart(v, [], first, v[|first|..]);
      }
    }
  }

  lemma {:induction false} FirstPart(v: string)
    ensures var first := Split(v, ',')[0]; |first| <= |v| && v[..|first|] == first
  {
    if v != "" && v[0] != ',' {
      FirstPart(v[1..]);
    }
  }

  lemma TrimIsSound(part: string)
    requires ',' !in part && Unmarked(part) && Trim(part) != ""
    ensures SoundItem(Trim(part))
  {
    TrimUnmarked(part);
    var a, b := TrimParts(part);
    assert forall c :: c in Trim(part) ==> c in a + Trim(part) + b;
  }

  lemma {:induction false} ItemsAreSound(parts: seq<string>)
    requires forall i :: 0 <= i < |parts| ==> ',' !in parts[i] && Unmarked(parts[i])
    ensures SoundItems(Items(parts))
  {
    if parts != [] {
      ItemsAreSound(parts[1..]);
      if Trim(parts[0]) != "" {
        TrimIsSound(parts[0]);
      }
    }
  }

  /** A list comes back exactly when it is clean. */
  lemma ListReadsBackIff(items: seq<string>)
    ensures ReadItems(items) == items <==> CleanItems(items)
  {
    if items != [] {
      var v := ReadValue(Join(items, ", "));
      ReadIsClean(Join(items, ", "));
      PartsUnmarked(v);
      ItemsAreSound(Split(v, ','));
      if SoundItems(items) {
        ReadItemsKept(items);
      }
    }
  }
}
