/** Sets of integers as text: printed in ascending order between commas, and read back from one
    line of a stream. */
module IntSets {

  const INT_MIN: int := -0x8000_0000
  const INT_MAX: int := 0x7fff_ffff

  predicate IsInt(x: int) { INT_MIN <= x <= INT_MAX }

  // ---- numbers as text ---------------------------------------------------------------------

  function Digit(d: nat): char
    requires d < 10
  {
    '0' + d as char
  }

  function ShowNat(n: nat): string {
    if n < 10 then [Digit(n)] else ShowNat(n / 10) + [Digit(n % 10)]
  }

  /** How the stream prints an int. */
  function Show(x: int): string {
    if x < 0 then "-" + ShowNat(-x) else ShowNat(x)
  }

  datatype Cast = Number(value: int) | BadCast

  function ReadNat(s: string): Cast {
    if s == "" then BadCast
    else if !('0' <= s[|s| - 1] <= '9') then BadCast
    else
      var d := (s[|s| - 1] - '0') as int;
      if |s| == 1 then Number(d)
      else match ReadNat(s[..|s| - 1]) case BadCast => BadCast case Number(n) => Number(10 * n + d)
  }

  /** lexical_cast: an optional sign and digits, nothing else, and no overflow. */
  function ReadInt(s: string): (r: Cast)
    ensures r.Number? ==> IsInt(r.value)
  {
    if s == "" then BadCast
    else
      var r := if s[0] == '-' || s[0] == '+' then ReadNat(s[1..]) else ReadNat(s);
      if r.BadCast? then BadCast
      else
        var x := if s[0] == '-' then -r.value else r.value;
        if IsInt(x) then Number(x) else BadCast
  }

  /** Digits, and at least one. */
  lemma {:induction false} ShowNatDigits(n: nat)
    ensures |ShowNat(n)| >= 1 && forall i :: 0 <= i < |ShowNat(n)| ==> '0' <= ShowNat(n)[i] <= '9'
  {
    if n < 10 {
    } else {
      ShowNatDigits(n / 10);
    }
  }

  lemma {:induction false} ReadNatShowNat(n: nat)
    ensures ReadNat(ShowNat(n)) == Number(n)
  {
    ShowNatDigits(n);
    var s := ShowNat(n);
    if n < 10 {
    } else {
      ReadNatShowNat(n / 10);
      ShowNatDigits(n / 10);
      assert s[..|s| - 1] == ShowNat(n / 10);
    }
  }

  /** A printed int is read back. */
  lemma {:induction false} ReadIntShow(x: int)
    requires IsInt(x)
    ensures ReadInt(Show(x)) == Number(x)
  {
    var n: nat := if x < 0 then -x else x;
    ShowNatDigits(n);
    ReadNatShowNat(n);
    if x < 0 { assert Show(x)[1..] == ShowNat(n); }
  }

  lemma {:induction false} ShowIsToken(x: int)
    ensures Show(x) != "" && forall i :: 0 <= i < |Show(x)| ==> Show(x)[i] != ',' && Show(x)[i] != '\n'
  {
    ShowNatDigits(if x < 0 then -x else x);
  }

  // ---- lists as text -----------------------------------------------------------------------

  function Join(items: seq<int>): string {
    if items == [] then ""
    else if |items| == 1 then Show(items[0])
    else Show(items[0]) + "," + Join(items[1..])
  }

  function Flush(token: string): seq<string> { if token == "" then [] else [token] }

  /** The tokenizer: the pieces between commas, but no empty ones. */
  function Tokens(s: string, token: string): seq<string> {
    if s == "" then Flush(token)
    else if s[0] == ',' then Flush(token) + Tokens(s[1..], "")
    else Tokens(s[1..], token + [s[0]])
  }

  lemma {:induction false} TokensOfWord(word: string, rest: string, token: string)
    requires forall i :: 0 <= i < |word| ==> word[i] != ','
    ensures Tokens(word + rest, token) == Tokens(rest, token + word)
    decreases |word|
  {
    if word == "" {
      assert word + rest == rest && token + word == token;
    } else {
      assert (word + rest)[1..] == word[1..] + rest;
      assert token + [word[0]] + word[1..] == token + word;
      TokensOfWord(word[1..], rest, token + [word[0]]);
    }
  }

  function ShowAll(items: seq<int>): (r: seq<string>)
    ensures |r| == |items|
  {
    seq(|items|, i requires 0 <= i < |items| => Show(items[i]))
  }

  lemma {:induction false} FirstToken(word: string, rest: string)
    requires word != "" && forall i :: 0 <= i < |word| ==> word[i] != ','
    ensures Tokens(word + "," + rest, "") == [word] + Tokens(rest, "")
    ensures Tokens(word, "") == [word]
  {
    TokensOfWord(word, "," + rest, "");
    assert word + "," + rest == word + ("," + rest) && ("," + rest)[1..] == rest;
    TokensOfWord(word, "", "");
    assert word + "" == word && "" + word == word;
  }

  /** The tokens of a printed list are its printed elements. */
  lemma {:induction false} TokensOfJoin(items: seq<int>)
    ensures Tokens(Join(items), "") == ShowAll(items)
  {
    hide Show;
    if items == [] {
      assert ShowAll([]) == [];
    } else {
      ShowIsToken(items[0]);
      FirstToken(Show(items[0]), Join(items[1..]));
      if |items| > 1 { TokensOfJoin(items[1..]); }
      assert ShowAll(items) == [Show(items[0])] + ShowAll(items[1..]);
    }
  }

  lemma {:induction false} JoinIsOneLine(items: seq<int>)
    ensures forall i :: 0 <= i < |Join(items)| ==> Join(items)[i] != '\n'
  {
    if items == [] {
    } else {
      ShowIsToken(items[0]);
      JoinIsOneLine(items[1..]);
    }
  }

  /** getline: up to the first newline, which is dropped. */
  function Line(s: string): string {
    if s == "" || s[0] == '\n' then "" else [s[0]] + Line(s[1..])
  }

  function AfterLine(s: string): string {
    if s == "" then "" else if s[0] == '\n' then s[1..] else AfterLine(s[1..])
  }

  lemma {:induction false} LineOfJoin(text: string, rest: string)
    requires forall i :: 0 <= i < |text| ==> text[i] != '\n'
    ensures Line(text) == text
    ensures Line(text + "\n" + rest) == text && AfterLine(text + "\n" + rest) == rest
  {
    if text != "" {
      LineOfJoin(text[1..], rest);
      assert (text + "\n" + rest)[1..] == text[1..] + "\n" + rest;
    } else {
      assert text + "\n" + rest == "\n" + rest;
    }
  }

  // ---- sets --------------------------------------------------------------------------------

  ghost predicate Ascending(s: seq<int>) {
    forall i, j :: 0 <= i < j < |s| ==> s[i] < s[j]
  }

  /** std::set's insert, the elements kept in ascending order. */
  function Insert(s: seq<int>, x: int): seq<int> {
    if s == [] then [x]
    else if x < s[0] then [x] + s
    else if x == s[0] then s
    else [s[0]] + Insert(s[1..], x)
  }

  /** Exactly the new element is added, and the order stays ascending. */
  lemma {:induction false} InsertAdds(s: seq<int>, x: int)
    requires Ascending(s)
    ensures Ascending(Insert(s, x)) && forall y :: y in Insert(s, x) <==> y in s || y == x
  {
    forall y: int ensures y in Insert(s, x) <==> y in s || y == x { InsertMember(s, x, y); }
    if s == [] || x <= s[0] {
    } else {
      InsertAdds(s[1..], x);
      var t := Insert(s[1..], x);
      forall j | 0 <= j < |t| ensures s[0] < t[j] { InsertMember(s[1..], x, t[j]); }
    }
  }

  lemma {:induction false} InsertMember(s: seq<int>, x: int, y: int)
    ensures y in Insert(s, x) <==> y in s || y == x
  {
    if s == [] || x <= s[0] {
    } else {
      InsertMember(s[1..], x, y);
      assert s == [s[0]] + s[1..];
    }
  }

  /** Reading tokens into a set, up to the first that is no int. */
  function ReadTokens(s: seq<int>, tokens: seq<string>): (bool, seq<int>)
    decreases |tokens|
  {
    if tokens == [] then (true, s)
    else match ReadInt(tokens[0])
      case BadCast => (false, s)
      case Number(x) => ReadTokens(Insert(s, x), tokens[1..])
  }

  lemma {:induction false} ReadTokensAdds(s: seq<int>, items: seq<int>)
    requires Ascending(s) && forall i :: 0 <= i < |items| ==> IsInt(items[i])
    ensures ReadTokens(s, ShowAll(items)).0 && Ascending(ReadTokens(s, ShowAll(items)).1)
    ensures forall y :: y in ReadTokens(s, ShowAll(items)).1 <==> y in s || y in items
    decreases |items|
  {
    hide Show, Insert, ReadInt, Ascending;
    if items == [] {
    } else {
      ReadIntShow(items[0]);
      InsertAdds(s, items[0]);
      assert ShowAll(items)[1..] == ShowAll(items[1..]) && ShowAll(items)[0] == Show(items[0]);
      ReadTokensAdds(Insert(s, items[0]), items[1..]);
      forall y: int ensures y in items <==> y == items[0] || y in items[1..] { HeadOrTail(items, y); }
    }
  }

  lemma {:induction false} HeadOrTail(s: seq<int>, y: int)
    requires s != []
    ensures y in s <==> y == s[0] || y in s[1..]
  {
    assert s == [s[0]] + s[1..];
  }

  /** Ascending lists with the same elements are equal. */
  lemma {:induction false} AscendingUnique(s: seq<int>, t: seq<int>)
    requires Ascending(s) && Ascending(t) && forall y :: y in s <==> y in t
    ensures s == t
  {
    if s == [] {
      if t != [] { FirstIn(t); }
    } else {
      assert s[0] in s;
      assert t[0] in t;
      SmallestFirst(s, t[0]);
      SmallestFirst(t, s[0]);
      forall y: int ensures y in s[1..] <==> y in t[1..] {
        TailMember(s, y);
        TailMember(t, y);
      }
      AscendingUnique(s[1..], t[1..]);
    }
  }

  lemma {:induction false} FirstIn(s: seq<int>)
    requires s != []
    ensures s[0] in s
  {
  }

  lemma {:induction false} SmallestFirst(s: seq<int>, y: int)
    requires Ascending(s) && y in s
    ensures s[0] <= y
  {
  }

  lemma {:induction false} TailMember(s: seq<int>, y: int)
    requires Ascending(s) && s != []
    ensures y in s[1..] <==> y in s && y != s[0]
  {
    assert s == [s[0]] + s[1..];
  }

  /** Printing a set and reading the line gives the set back when read into an empty one, and the
      union when read into another. */
  lemma {:induction false} RoundTrip(items: seq<int>, other: seq<int>, rest: string)
    requires Ascending(items) && Ascending(other) && forall i :: 0 <= i < |items| ==> IsInt(items[i])
    ensures var stream := Join(items) + "\n" + rest;
      var (ok, s) := ReadTokens(other, Tokens(Line(stream), ""));
      && ok && AfterLine(stream) == rest
      && (forall y :: y in s <==> y in other || y in items)
      && (other == [] ==> s == items)
  {
    JoinIsOneLine(items);
    LineOfJoin(Join(items), rest);
    TokensOfJoin(items);
    ReadTokensAdds(other, items);
    if other == [] { AscendingUnique(ReadTokens(other, ShowAll(items)).1, items); }
  }

  class IntSet {
    var items: seq<int>

    ghost predicate Valid()
      reads this
    {
      Ascending(items) && forall i :: 0 <= i < |items| ==> IsInt(items[i])
    }

    constructor ()
      ensures Valid() && items == []
    {
      items := [];
    }

    /** operator<<: a comma behind every element but the last. */
    method Print() returns (text: string)
      requires Valid()
      ensures text == Join(items)
    {
      hide Show, Join;
      text := "";
      for i := 0 to |items|
        invariant text + Join(items[i..]) == Join(items)
      {
        JoinStep(text, items, i);
        if i != |items| - 1 {
          text := text + Show(items[i]) + ",";
        } else {
          text := text + Show(items[i]);
        }
      }
      JoinStep(text, items, |items|);
    }

    /** operator>>: the ints of one line are inserted; a token that is no int stops it, and what
        came before stays inserted. */
    method Read(stream: string) returns (ok: bool, rest: string)
      requires Valid()
      modifies this
      ensures (ok, items) == ReadTokens(old(items), Tokens(Line(stream), "")) && rest == AfterLine(stream)
      ensures Valid()
    {
      var tokens := Tokens(Line(stream), "");
      rest := AfterLine(stream);
      for k := 0 to |tokens|
        invariant Valid() && ReadTokens(items, tokens[k..]) == ReadTokens(old(items), tokens)
      {
        assert tokens[k..][1..] == tokens[k + 1..];
        var r := ReadInt(tokens[k]);
        if r.BadCast? {
          return false, rest;
        }
        InsertAdds(items, r.value);
        InsertInts(items, r.value);
        items := Insert(items, r.value);
      }
      ok := true;
    }
  }

  /** What is left to print behind a text: nothing, or an element and the rest. */
  lemma {:induction false} JoinStep(text: string, items: seq<int>, i: nat)
    requires i <= |items|
    ensures i == |items| ==> text + Join(items[i..]) == text
    ensures i < |items| ==>
      text + Join(items[i..]) ==
        text + Show(items[i]) + (if i != |items| - 1 then "," else "") + Join(items[i + 1..])
  {
    hide Show;
    if i < |items| {
      assert items[i..][1..] == items[i + 1..];
      var word, rest := Show(items[i]), Join(items[i + 1..]);
      assert text + (word + "," + rest) == text + word + "," + rest;
      assert text + word == text + word + "" + "";
    }
  }

  lemma {:induction false} InsertInts(s: seq<int>, x: int)
    requires IsInt(x) && forall i :: 0 <= i < |s| ==> IsInt(s[i])
    ensures forall i :: 0 <= i < |Insert(s, x)| ==> IsInt(Insert(s, x)[i])
  {
    if s == [] {
    } else {
      InsertInts(s[1..], x);
    }
  }
}
