/** The key that a follower hears when hw10's leader asks it: the leader puts the key into the
    query of a URL as it is, and the follower decodes the query. Keys are strings of bytes. */
module PeerQuery {
  import opened Common

  /** The part before the first such character: all of the text if there is none. */
  function Before(text: string, c: char): (part: string)
    ensures part <= text && c !in part
    ensures c in text ==> |part| < |text| && text[|part|] == c
    ensures c !in text ==> part == text
  {
    if text == [] || text[0] == c then [] else [text[0]] + Before(text[1..], c)
  }

  /** The part after the first such character, if there is one. */
  function After(text: string, c: char): (part: string)
    ensures |part| <= |text| && (c in text ==> |part| < |text|)
  {
    if c in text then text[|Before(text, c)| + 1..] else []
  }

  predicate IsHex(c: char) {
    '0' <= c <= '9' || 'a' <= c <= 'f' || 'A' <= c <= 'F'
  }

  function HexValue(c: char): nat
    requires IsHex(c)
  {
    if c <= '9' then c as nat - '0' as nat
    else if c <= 'F' then c as nat - 'A' as nat + 10
    else c as nat - 'a' as nat + 10
  }

  /** `QueryUnescape`: no result if a percent sign is not followed by two hexadecimal digits. */
  function Unescape(text: string): (plain: Option<string>)
    ensures plain.Some? ==> |plain.value| <= |text|
  {
    if text == [] then Some([])
    else if text[0] == '%' then
      if |text| < 3 || !IsHex(text[1]) || !IsHex(text[2]) then None
      else
        var rest := Unescape(text[3..]);
        if rest.None? then None else Some([(16 * HexValue(text[1]) + HexValue(text[2])) as char] + rest.value)
    else
      var rest := Unescape(text[1..]);
      if rest.None? then None else Some([if text[0] == '+' then ' ' else text[0]] + rest.value)
  }

  /** `Query().Get("key")`: the value of the first well-formed pair of that name, or nothing. */
  function ValueOfKey(query: string): string
    decreases |query|
  {
    if query == [] then []
    else
      var pair, rest := Before(query, '&'), After(query, '&');
      var name, value := Unescape(Before(pair, '=')), Unescape(After(pair, '='));
      if pair != [] && ';' !in pair && name == Some("key") && value.Some? then value.value
      else if '&' in query then ValueOfKey(rest) else []
  }

  predicate IsControl(c: char) {
    c < ' ' || c as int == 127
  }

  predicate BreaksRequest(query: string) {
    exists c :: c in query && (c == ' ' || IsControl(c))
  }

  /** What the follower takes for the key; none if the request fails: its URL has a control
      character or a bad fragment, or the server refuses a blank in the request line. */
  function Heard(key: string): Option<string> {
    var query := "key=" + Before(key, '#');
    if BreaksRequest(query) || Unescape(After(key, '#')).None? then None
    else Some(ValueOfKey(query))
  }

  /** No character that the URL gives a meaning of its own. */
  predicate IsPlain(key: string) {
    forall c :: c in key ==> c !in "#&+%; " && !IsControl(c)
  }

  // ----- a key is heard as it is exactly if it is plain -----

  lemma {:induction false} UnescapePlain(text: string)
    ensures Unescape(text) == Some(text) <==> '%' !in text && '+' !in text
  {
    if text != [] {
      UnescapePlain(text[1..]);
      assert text == [text[0]] + text[1..];
    }
  }

  /** A value is shorter than its query by at least the name and the equals sign. */
  lemma {:induction false} ValueIsShorter(query: string)
    ensures ValueOfKey(query) != [] ==> |ValueOfKey(query)| + 4 <= |query|
    decreases |query|
  {
    if query != [] {
      var pair, rest := Before(query, '&'), After(query, '&');
      if '&' in query {
        ValueIsShorter(rest);
      }
      if Unescape(Before(pair, '=')) == Some("key") {
        assert |Before(pair, '=')| >= 3;
      }
    }
  }

  lemma NamedKey()
    ensures Unescape("key") == Some("key")
  {
    UnescapePlain("key");
  }

  /** A prefix without the character shifts the place where it occurs. */
  lemma SplitPrefix(prefix: string, text: string, c: char)
    requires c !in prefix
    ensures Before(prefix + text, c) == prefix + Before(text, c) && After(prefix + text, c) == After(text, c)
    ensures c in prefix + text <==> c in text
  {
    BeforePrefix(prefix, text, c);
    var n := |Before(text, c)| + 1;
    if c in text {
      DropPrefix(prefix, text, n);
      hide Before;
      assert |Before(prefix + text, c)| + 1 == |prefix| + n;
    }
  }

  lemma DropPrefix(prefix: string, text: string, n: nat)
    requires n <= |text|
    ensures (prefix + text)[|prefix| + n..] == text[n..]
  {
  }

  /** The first pair carries the key's beginning. */
  lemma FirstPair(key: string)
    ensures Before("key=" + key, '&') == "key=" + Before(key, '&') && After("key=" + key, '&') == After(key, '&')
    ensures '&' in "key=" + key <==> '&' in key
  {
    SplitPrefix("key=", key, '&');
  }

  lemma NameAndValue(value: string)
    ensures Before("key=" + value, '=') == "key" && After("key=" + value, '=') == value
  {
    assert "key=" + value == "key" + ("=" + value);
    SplitPrefix("key", "=" + value, '=');
    assert Before("=" + value, '=') == [];
    assert ("=" + value)[1..] == value;
  }

  lemma {:induction false} BeforePrefix(prefix: string, text: string, c: char)
    requires c !in prefix
    ensures Before(prefix + text, c) == prefix + Before(text, c)
    ensures c in prefix + text <==> c in text
  {
    if prefix == [] {
      assert prefix + text == text;
    } else {
      assert (prefix + text)[1..] == prefix[1..] + text && (prefix + text)[0] == prefix[0] != c;
      assert Before(prefix + text, c) == [prefix[0]] + Before(prefix[1..] + text, c);
      hide Before;
      assert prefix == [prefix[0]] + prefix[1..];
      BeforePrefix(prefix[1..], text, c);
    }
  }

  lemma HeardValue(key: string)
    requires '#' !in key
    ensures var value := ValueOfKey("key=" + key);
            if ';' in Before(key, '&') || Unescape(Before(key, '&')).None?
            then value == if '&' in key then ValueOfKey(After(key, '&')) else []
            else value == Unescape(Before(key, '&')).value
  {
    FirstPair(key);
    NameAndValue(Before(key, '&'));
    NamedKey();
    var query, value := "key=" + key, Before(key, '&');
    assert ';' in "key=" + value <==> ';' in value;
    hide Unescape, Before, After;
  }

  /** With a special character the key is heard shorter, or with another character. */
  lemma SpecialIsHeardOtherwise(key: string)
    requires Heard(key).Some? && !IsPlain(key)
    ensures Heard(key).value != key
  {
    var start := Before(key, '#');
    HeardValue(start);
    ValueIsShorter("key=" + start);
    if '#' !in key {
      if '&' in key || ';' in Before(key, '&') || Unescape(Before(key, '&')).None? {
        ShorterPart(key);
      } else {
        UnescapePlain(key);
        NotPlain(key);
      }
    }
  }

  lemma NotPlain(key: string)
    requires !IsPlain(key) && '#' !in key && '&' !in key && ';' !in key && Heard(key).Some?
    ensures '%' in key || '+' in key
  {
    var c :| c in key && !(c !in "#&+%; " && !IsControl(c));
    assert c in "key=" + key;
  }

  lemma ShorterPart(key: string)
    requires '#' !in key && ('&' in key || ';' in Before(key, '&') || Unescape(Before(key, '&')).None?)
    ensures ValueOfKey("key=" + key) != key
  {
    HeardValue(key);
    if ';' in Before(key, '&') || Unescape(Before(key, '&')).None? {
      assert key != [];
      ValueIsShorter(After(key, '&'));
    }
  }

  lemma PlainIsHeard(key: string)
    requires IsPlain(key)
    ensures Heard(key) == Some(key)
  {
    PlainIsClean(key);
    assert Before(key, '#') == key && After(key, '#') == [] && Before(key, '&') == key;
    assert Unescape([]) == Some([]);
    HeardValue(key);
    UnescapePlain(key);
    hide Unescape, Before, After, ValueOfKey, IsPlain;
  }

  lemma PlainIsClean(key: string)
    requires IsPlain(key)
    ensures '#' !in key && '&' !in key && ';' !in key && '%' !in key && '+' !in key
    ensures ' ' !in "key=" + key && !exists c :: c in "key=" + key && IsControl(c)
  {
    forall c | c in "key=" + key ensures c != ' ' && !IsControl(c) {
      assert c in "key=" || c in key;
    }
  }

  /** A key is heard as it is exactly if it is plain. */
  lemma HeardAsItIsIffPlain(key: string)
    ensures Heard(key) == Some(key) <==> IsPlain(key)
  {
    hide *;
    if IsPlain(key) {
      PlainIsHeard(key);
    } else if Heard(key).Some? {
      SpecialIsHeardOtherwise(key);
    }
  }

  /** The leader asks for "x#1" and the follower hears "x". */
  lemma HeardExample()
    ensures Heard("x#1") == Some("x")
  {
    assert Before("x#1", '#') == "x" && After("x#1", '#') == "1" by {
      assert "x#1" == "x" + "#1";
      SplitPrefix("x", "#1", '#');
      assert Before("#1", '#') == [] && "#1"[1..] == "1";
    }
    UnescapePlain("1");
    PlainIsHeard("x");
    assert Before("x", '#') == "x";
    hide Unescape, Before, After, ValueOfKey;
  }

  // ----- what other keys are heard as -----

  function HexDigit(d: nat): (c: char)
    requires d < 16
    ensures '0' <= c <= '9' || 'A' <= c <= 'F'
    ensures HexValue(c) == d
  {
    if d < 10 then ('0' as int + d) as char else ('A' as int + d - 10) as char
  }

  predicate AreBytes(key: string) {
    forall i :: 0 <= i < |key| ==> key[i] as int < 256
  }

  predicate IsUnreserved(c: char) {
    'a' <= c <= 'z' || 'A' <= c <= 'Z' || '0' <= c <= '9' || c in "-_.~"
  }

  /** `QueryEscape`, which the leader does not use: a blank becomes a plus sign, and a byte that
      is not unreserved a percent sign with two hexadecimal digits. */
  function Escape(key: string): string
    requires AreBytes(key)
  {
    if key == [] then []
    else
      var c, rest := key[0], Escape(key[1..]);
      (if IsUnreserved(c) then [c]
       else if c == ' ' then "+"
       else ['%', HexDigit(c as int / 16), HexDigit(c as int % 16)]) + rest
  }

  lemma HexDigits(b: nat)
    requires b < 256
    ensures 16 * HexValue(HexDigit(b / 16)) + HexValue(HexDigit(b % 16)) == b
  {
  }

  lemma UnescapeOne(c: char, rest: string)
    requires c != '%'
    ensures Unescape([c] + rest) ==
            if Unescape(rest).None? then None else Some([if c == '+' then ' ' else c] + Unescape(rest).value)
  {
    assert ([c] + rest)[1..] == rest;
  }

  lemma UnescapeHex(b: nat, rest: string)
    requires b < 256 && Unescape(rest).Some?
    ensures Unescape(['%', HexDigit(b / 16), HexDigit(b % 16)] + rest) == Some([b as char] + Unescape(rest).value)
  {
    HexDigits(b);
    assert (['%', HexDigit(b / 16), HexDigit(b % 16)] + rest)[3..] == rest;
    hide HexDigit, HexValue, IsHex;
  }

  /** Decoding inverts escaping. */
  lemma {:induction false} UnescapeEscape(key: string)
    requires AreBytes(key)
    ensures Unescape(Escape(key)) == Some(key)
  {
    if key != [] {
      var c, rest := key[0], Escape(key[1..]);
      UnescapeEscape(key[1..]);
      assert key == [c] + key[1..];
      if IsUnreserved(c) {
        UnescapeOne(c, rest);
      } else if c == ' ' {
        UnescapeOne('+', rest);
      } else {
        UnescapeHex(c as int, rest);
      }
    }
  }

  lemma {:induction false} EscapeIsClean(key: string, c: char)
    requires AreBytes(key)
    requires c in Escape(key)
    ensures IsUnreserved(c) || c == '+' || c == '%'
  {
    var rest := Escape(key[1..]);
    if c in rest {
      EscapeIsClean(key[1..], c);
    } else {
      hide HexDigit;
    }
  }

  /** A key without the characters that end or spoil the query is heard as it is decoded, or
      as the empty key if its percent signs are malformed. */
  lemma HeardAsDecoded(key: string)
    requires forall c :: c in key ==> c !in "#&; " && !IsControl(c)
    ensures Heard(key) == Some(if Unescape(key).Some? then Unescape(key).value else "")
  {
    assert '#' !in key && '&' !in key && ';' !in key && ' ' !in key;
    assert Before(key, '#') == key && After(key, '#') == [] && Before(key, '&') == key;
    assert Unescape([]) == Some([]);
    forall c | c in "key=" + key ensures c != ' ' && !IsControl(c) {
      assert c in "key=" || c in key;
    }
    HeardValue(key);
    hide Unescape, Before, After, ValueOfKey;
  }

  lemma UnreservedIsClean(c: char)
    requires IsUnreserved(c) || c == '+' || c == '%'
    ensures c !in "#&; " && !IsControl(c)
  {
  }

  /** Had the leader escaped the key, the follower would hear it as it is, whatever it is. */
  lemma EscapedIsHeard(key: string)
    requires AreBytes(key)
    ensures Heard(Escape(key)) == Some(key)
  {
    UnescapeEscape(key);
    hide Escape, Unescape, Heard;
    forall c | c in Escape(key) ensures c !in "#&; " && !IsControl(c) {
      EscapeIsClean(key, c);
      UnreservedIsClean(c);
    }
    HeardAsDecoded(Escape(key));
  }

  lemma {:induction false} UnescapePlus(key: string)
    requires '%' !in key
    ensures Unescape(key).Some? && |Unescape(key).value| == |key|
    ensures forall i :: 0 <= i < |key| ==> Unescape(key).value[i] == if key[i] == '+' then ' ' else key[i]
  {
    if key != [] {
      assert key == [key[0]] + key[1..];
      UnescapePlus(key[1..]);
    }
  }

  /** A plus sign is heard as a blank, and nothing else changes. */
  lemma PlusIsHeardAsBlank(key: string)
    requires forall c :: c in key ==> c !in "#&%; " && !IsControl(c)
    ensures Heard(key).Some? && |Heard(key).value| == |key|
    ensures forall i :: 0 <= i < |key| ==> Heard(key).value[i] == if key[i] == '+' then ' ' else key[i]
  {
    UnescapePlus(key);
    hide Unescape, Heard;
    HeardAsDecoded(key);
  }

  /** A percent sign with two hexadecimal digits is heard as that byte. */
  lemma PercentIsHeardAsByte(a: string, b: nat, rest: string)
    requires b < 256 && IsPlain(a) && IsPlain(rest)
    ensures Heard(a + ['%', HexDigit(b / 16), HexDigit(b % 16)] + rest) == Some(a + [b as char] + rest)
  {
    var coded := ['%', HexDigit(b / 16), HexDigit(b % 16)] + rest;
    var key := a + ['%', HexDigit(b / 16), HexDigit(b % 16)] + rest;
    assert key == a + coded;
    UnescapePlain(rest);
    assert '%' !in rest && '+' !in rest && '%' !in a && '+' !in a;
    UnescapeHex(b, rest);
    UnescapePrefix(a, coded);
    hide Unescape, Heard;
    HexIsClean(b);
    hide HexDigit;
    forall c | c in key ensures c !in "#&; " && !IsControl(c) {
      assert c in a || c in rest || c == '%' || c == HexDigit(b / 16) || c == HexDigit(b % 16);
    }
    hide IsPlain;
    HeardAsDecoded(key);
    assert a + ([b as char] + rest) == a + [b as char] + rest;
  }

  lemma HexIsClean(b: nat)
    requires b < 256
    ensures HexDigit(b / 16) !in "#&; " && HexDigit(b % 16) !in "#&; "
    ensures !IsControl(HexDigit(b / 16)) && !IsControl(HexDigit(b % 16))
  {
    hide HexDigit;
  }

  lemma {:induction false} UnescapePrefix(a: string, b: string)
    requires '%' !in a && '+' !in a && Unescape(b).Some?
    ensures Unescape(a + b) == Some(a + Unescape(b).value)
  {
    if a == [] {
      assert a + b == b && a + Unescape(b).value == Unescape(b).value;
    } else {
      assert a == [a[0]] + a[1..];
      UnescapePrefix(a[1..], b);
      assert a + b == [a[0]] + (a[1..] + b);
      UnescapeOne(a[0], a[1..] + b);
      hide Unescape;
      assert [a[0]] + (a[1..] + Unescape(b).value) == a + Unescape(b).value;
    }
  }

  /** A digit is understood in either case. */
  lemma HexInEitherCase(d: nat)
    requires d < 16
    ensures var lower, upper := "0123456789abcdef"[d], "0123456789ABCDEF"[d];
            IsHex(lower) && IsHex(upper) && HexValue(lower) == d == HexValue(upper)
  {
  }

  // ----- keys that are not heard at all -----

  /** A percent sign that two hexadecimal digits do not follow. */
  predicate BadPercent(text: string, i: nat) {
    && i < |text| && text[i] == '%'
    && !(i + 2 < |text| && IsHex(text[i + 1]) && IsHex(text[i + 2]))
  }

  /** A blank or a control character. */
  ghost predicate HasBadByte(text: string) {
    exists c :: c in text && (c as int <= 32 || c as int == 127)
  }

  ghost predicate HasBadPercent(text: string) {
    exists i :: BadPercent(text, i)
  }

  lemma {:induction false} UnescapeFailsIff(text: string)
    ensures Unescape(text) == None <==> HasBadPercent(text)
    decreases |text|
  {
    if text != [] {
      var n := if text[0] == '%' then 3 else 1;
      if BadPercent(text, 0) {
        assert Unescape(text) == None;
      } else {
        var rest := text[n..];
        UnescapeFailsIff(rest);
        if i: nat :| BadPercent(rest, i) {
          assert BadPercent(text, n + i);
        }
        if i: nat :| BadPercent(text, i) {
          assert i >= n;
          assert BadPercent(rest, i - n);
        }
      }
    }
  }

  /** A key is not heard at all exactly if a control character or a blank stands before its
      first number sign, or after it a percent sign that begins no escape. */
  lemma NotHeardIff(key: string)
    ensures Heard(key) == None <==>
            || HasBadByte(Before(key, '#'))
            || HasBadPercent(After(key, '#'))
  {
    UnescapeFailsIff(After(key, '#'));
    BreaksIff(Before(key, '#'));
    hide Unescape, ValueOfKey, Before, After, BreaksRequest, HasBadByte, HasBadPercent;
  }

  lemma BreaksIff(part: string)
    ensures BreaksRequest("key=" + part) <==> HasBadByte(part)
  {
    assert forall c :: c in "key=" + part <==> c in part || c in "key=";
    assert forall c :: c in "key=" ==> c as int > 32 && c as int != 127;
    if c :| c in part && (c as int <= 32 || c as int == 127) {
      assert c in "key=" + part && (c == ' ' || IsControl(c));
    }
  }
}
