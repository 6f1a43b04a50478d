/**
 The comma-separated lists of AuthenticationMethods: how a list string is read, and how the
 name that has just succeeded is cut off its front.
 */
module AuthLists {

  datatype Option<+T> = None | Some(value: T)

  /** One element of a list: a method name and, after a colon, a submethod. */
  datatype Item = Item(name: string, sub: Option<string>)

  datatype Match = MatchNone | MatchMethod | MatchBoth | MatchPartial

  predicate Free(s: string, c: char) { forall i | 0 <= i < |s| :: s[i] != c }

  /** A method name as the configuration table spells them. */
  predicate Plain(s: string) { s != "" && Free(s, ',') && Free(s, ':') }

  /** The index of the first `c`, or the length: strchr and the scan inside strsep. */
  function Cut(s: string, c: char): (k: nat)
    ensures k <= |s| && Free(s[..k], c) && (k < |s| ==> s[k] == c)
  {
    if s == "" || s[0] == c then 0 else 1 + Cut(s[1..], c)
  }

  lemma CutIs(s: string, c: char, k: nat)
    requires k <= |s| && Free(s[..k], c) && (k < |s| ==> s[k] == c)
    ensures Cut(s, c) == k
  {
    var j := Cut(s, c);
    assert forall i | 0 <= i < k :: s[..k][i] == s[i];
    assert forall i | 0 <= i < j :: s[..j][i] == s[i];
  }

  lemma PrefixStops(name: string, s: string, c: char)
    requires name <= s && Free(name, c)
    ensures |name| <= Cut(s, c)
  {
  }

  /** The tokens that repeated strsep(&s, ",") returns. */
  function Tokens(s: string): seq<string>
    decreases |s|
  {
    var k := Cut(s, ',');
    if k == |s| then [s] else [s[..k]] + Tokens(s[k + 1..])
  }

  function ItemOf(token: string): Item {
    var k := Cut(token, ':');
    if k == |token| then Item(token, None) else Item(token[..k], Some(token[k + 1..]))
  }

  /** What is left to do: nothing for the empty string, otherwise the items in order. */
  function Parse(s: string): seq<Item> {
    if s == "" then [] else Items(Tokens(s))
  }

  function Items(tokens: seq<string>): seq<Item> {
    if tokens == [] then [] else [ItemOf(tokens[0])] + Items(tokens[1..])
  }

  /** A list all of whose elements name a method. */
  predicate WellFormed(s: string) {
    s != "" && forall t | t in Tokens(s) :: Plain(ItemOf(t).name)
  }

  // ---------- list_starts_with and remove_method ----------

  function ListStartsWith(methods: string, name: string, sub: Option<string>): Match {
    var l := |name|;
    if !(name <= methods) then MatchNone
    else if l < |methods| && methods[l] == ':' then
      if sub.None? then MatchPartial
      else if !(sub.value <= methods[l + 1..]) then MatchNone
      else
        var p := l + 1 + |sub.value|;
        if p < |methods| && methods[p] != ',' then MatchNone else MatchBoth
    else if l < |methods| && methods[l] != ',' then MatchNone
    else MatchMethod
  }

  /** The rest of the list if the method completes its first element. */
  function RemoveMethod(methods: string, name: string, sub: Option<string>): (r: Option<string>)
    ensures r.Some? ==> |r.value| < |methods| || name == ""
  {
    var m := ListStartsWith(methods, name, sub);
    if m != MatchMethod && m != MatchBoth then None
    else
      var p := if sub.Some? && m == MatchBoth then |name| + 1 + |sub.value| else |name|;
      Some(if p < |methods| && methods[p] == ',' then methods[p + 1..] else methods[p..])
  }

  // ---------- what these mean for the parsed list ----------

  /** How an item answers to a method and submethod, said of the item alone. */
  function Answer(item: Item, name: string, sub: Option<string>): Match {
    if item.name != name then MatchNone
    else if item.sub.None? then MatchMethod
    else if sub.None? then MatchPartial
    else if item.sub == sub then MatchBoth else MatchNone
  }

  predicate Completes(item: Item, name: string, sub: Option<string>) {
    item.name == name && (item.sub.None? || item.sub == sub)
  }

  lemma ItemsCons(token: string, rest: seq<string>)
    ensures Items([token] + rest) == [ItemOf(token)] + Items(rest)
  {
    assert ([token] + rest)[1..] == rest;
  }

  lemma HeadToken(s: string)
    requires s != ""
    ensures var k := Cut(s, ',');
            && Tokens(s)[0] == s[..k]
            && Parse(s) == [ItemOf(s[..k])] + (if k == |s| then [] else Items(Tokens(s[k + 1..])))
  {
    hide ItemOf, Cut;
    var k := Cut(s, ',');
    if k == |s| {
      assert s[..k] == s;
      assert Items([s]) == [ItemOf(s)];
    } else {
      ItemsCons(s[..k], Tokens(s[k + 1..]));
    }
  }

  /** Comparing characters at the front of the string is comparing with the first item. */
  lemma StartsWithIsAnswer(s: string, name: string, sub: Option<string>)
    requires WellFormed(s) && Plain(name) && (sub.Some? ==> Free(sub.value, ','))
    ensures Parse(s) != [] && ListStartsWith(s, name, sub) == Answer(Parse(s)[0], name, sub)
  {
    hide Tokens, Items, Cut;
    HeadToken(s);
    var k := Cut(s, ',');
    var head, l := s[..k], |name|;
    var c := Cut(head, ':');
    if name <= s {
      PrefixStops(name, s, ',');
      assert s[..l] == head[..l] == name;
      PrefixStops(name, head, ':');
      if l == c {
        assert ItemOf(head).name == name;
        if c < k && sub.Some? {
          SubmethodIsAnswer(s, c + 1, k, sub.value);
          assert head[c + 1..] == s[c + 1..k];
        }
      } else {
        assert head[l] != ':' && s[l] == head[l] != ',';
        assert |ItemOf(head).name| == c;
      }
    } else {
      assert s[..c] == head[..c] == ItemOf(head).name;
    }
  }

  /** The same for the part between the colon, before b, and the comma, at k. */
  lemma SubmethodIsAnswer(s: string, b: nat, k: nat, sub: string)
    requires b <= k <= |s| && Free(s[..k], ',') && (k < |s| ==> s[k] == ',') && Free(sub, ',')
    ensures (sub <= s[b..] && (b + |sub| < |s| ==> s[b + |sub|] == ',')) <==> s[b..k] == sub
  {
    hide Free;
    assert s[b..][..k - b] == s[b..k];
    if sub <= s[b..] && (b + |sub| < |s| ==> s[b + |sub|] == ',') { CommaAt(s, b, sub, k); }
  }

  lemma CommaAt(s: string, b: nat, sub: string, k: nat)
    requires b <= k <= |s| && Free(s[..k], ',') && (k < |s| ==> s[k] == ',')
    requires sub <= s[b..] && Free(sub, ',') && (b + |sub| < |s| ==> s[b + |sub|] == ',')
    ensures b + |sub| == k && sub == s[b..k]
  {
    var p := b + |sub|;
    assert forall i | b <= i < p :: s[i] == s[b..][i - b] == sub[i - b];
    assert forall i | 0 <= i < k :: s[i] == s[..k][i];
  }

  /** Removing from the string removes the first item, exactly when that item is completed. */
  lemma RemoveIsDrop(s: string, name: string, sub: Option<string>)
    requires WellFormed(s) && Plain(name) && (sub.Some? ==> Free(sub.value, ','))
    ensures Parse(s) != []
    ensures var r := RemoveMethod(s, name, sub);
            && (r.Some? <==> Completes(Parse(s)[0], name, sub))
            && (r.Some? ==> Parse(r.value) == Parse(s)[1..] && (r.value == "" || WellFormed(r.value)))
  {
    hide Tokens, Items, Cut, ListStartsWith, WellFormed, Plain, ItemOf;
    StartsWithIsAnswer(s, name, sub);
    NotBlank(s);
    HeadToken(s);
    var k := Cut(s, ',');
    if RemoveMethod(s, name, sub).Some? {
      CutPoint(s, k, name, sub);
      if k < |s| { RestWellFormed(s, k); } else { assert s[k..] == ""; }
    }
  }

  /** A completed first item ends where the comma is. */
  lemma CutPoint(s: string, k: nat, name: string, sub: Option<string>)
    requires WellFormed(s) && k == Cut(s, ',') && Completes(ItemOf(s[..k]), name, sub) && Plain(name)
    ensures var m := Answer(ItemOf(s[..k]), name, sub);
            (if sub.Some? && m == MatchBoth then |name| + 1 + |sub.value| else |name|) == k
  {
    var c := Cut(s[..k], ':');
  }

  lemma NotBlank(s: string)
    requires WellFormed(s)
    ensures s != ""
  {
  }

  lemma RestWellFormed(s: string, k: nat)
    requires WellFormed(s) && k == Cut(s, ',') && k < |s|
    ensures WellFormed(s[k + 1..]) && Parse(s[k + 1..]) == Items(Tokens(s[k + 1..]))
  {
    hide Items, ItemOf, Cut, Tokens, Plain;
    var rest := s[k + 1..];
    TokensOf(s, k);
    assert forall t | t in Tokens(rest) :: t in [s[..k]] + Tokens(rest);
    BlankToken();
    if rest == "" {
      assert "" in Tokens(rest);
      BlankIsNotPlain();
    }
  }

  lemma TokensOf(s: string, k: nat)
    requires k == Cut(s, ',') && k < |s|
    ensures Tokens(s) == [s[..k]] + Tokens(s[k + 1..])
  {
    hide Cut;
  }

  lemma BlankIsNotPlain()
    ensures !Plain("")
  {
  }

  /** A blank element names no method. */
  lemma BlankToken()
    ensures Tokens("") == [""] && ItemOf("").name == ""
  {
  }
}
