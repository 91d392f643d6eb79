/** How a paragraph's fields are read: the case of keys, the space around values, and what is missing. */
module DebFields {
  import opened Wrappers
  import opened Text
  import opened Deb822Text

  const SMALL := "abcdefghijklmnopqrstuvwxyz"
  const CAPITAL := "ABCDEFGHIJKLMNOPQRSTUVWXYZ"

  lemma SmallAt(n: nat)
    requires n < 26
    ensures SMALL[n] as int == 0x61 + n
  {
  }

  lemma CapitalAt(n: nat)
    requires n < 26
    ensures CAPITAL[n] as int == 0x41 + n
  {
  }

  /** Letter by letter the two cases correspond. */
  lemma CasesPair(n: nat)
    requires n < 26
    ensures LowerChar(CAPITAL[n]) == SMALL[n] == LowerChar(SMALL[n])
    ensures UpperChar(SMALL[n]) == CAPITAL[n] == UpperChar(CAPITAL[n])
    ensures IsLetter(SMALL[n]) && IsLetter(CAPITAL[n])
  {
    SmallAt(n);
    CapitalAt(n);
  }

  lemma LettersListed(c: char)
    ensures 'a' <= c <= 'z' ==> c in SMALL
    ensures 'A' <= c <= 'Z' ==> c in CAPITAL
  {
    if 'a' <= c <= 'z' {
      assert SMALL[c as int - 0x61] == c;
    }
    if 'A' <= c <= 'Z' {
      assert CAPITAL[c as int - 0x41] == c;
    }
  }

  /** Nothing else is a letter or has another case. */
  lemma OthersStay(c: char)
    requires c !in SMALL && c !in CAPITAL
    ensures LowerChar(c) == c == UpperChar(c) && !IsLetter(c)
  {
    LettersListed(c);
  }

  lemma SameLetter(c: char, d: char)
    requires LowerChar(c) == LowerChar(d)
    ensures UpperChar(c) == UpperChar(d) && IsLetter(c) == IsLetter(d)
  {
  }

  /** Keys that differ only in case name the same field. */
  lemma KeysIgnoreCase(j: string, k: string)
    requires Lower(j) == Lower(k)
    ensures NormalizeKey(j) == NormalizeKey(k)
  {
    assert |j| == |Lower(j)| == |Lower(k)| == |k|;
    forall i | 0 <= i < |j| ensures LowerChar(j[i]) == LowerChar(k[i]) {
      assert Lower(j)[i] == Lower(k)[i];
    }
    forall i | 0 <= i < |j| ensures Title(j)[i] == Title(k)[i] {
      SameLetter(j[i], k[i]);
      if i > 0 {
        SameLetter(j[i - 1], k[i - 1]);
      }
    }
    assert Title(j) == Title(k);
  }

  /** Space before and behind a value is dropped, and nothing else. */
  lemma {:induction false} StripDropsSpace(before: string, v: string, after: string)
    requires Blank(before) && Blank(after) && (v != "" ==> !IsSpace(v[0]) && !IsSpace(v[|v| - 1]))
    ensures Strip(before + v + after) == v
    decreases |before| + |after|
  {
    var s := before + v + after;
    if before != "" {
      assert s[0] == before[0] && s[1..] == before[1..] + v + after;
      StripDropsSpace(before[1..], v, after);
    } else if after != "" {
      var n := |after| - 1;
      if v == "" {
        assert s[0] == after[0] && s[1..] == "" + v + after[1..];
        StripDropsSpace("", v, after[1..]);
      } else {
        assert s[0] == v[0] && s[|s| - 1] == after[n] && s[..|s| - 1] == "" + v + after[..n];
        StripDropsSpace("", v, after[..n]);
      }
    } else {
      assert s == v;
    }
  }

  /** The line is a key without spaces, a colon, and a value. */
  ghost predicate Reads(line: string, key: string, value: string) {
    line == key + ":" + value && key != "" && forall c :: c in key ==> c != ':' && !IsSpace(c)
  }

  lemma ColonAt(line: string, key: string, value: string)
    requires Reads(line, key, value)
    ensures Find(line, ':') == |key| && line[..|key|] == key && line[|key| + 1..] == value && IsField(line)
  {
    FindAppend(key, ':', value);
    assert key + [':'] + value == line;
  }

  /** Exactly such lines are fields. */
  lemma FieldsRead(line: string)
    ensures IsField(line) <==> exists key, value :: Reads(line, key, value)
  {
    var n := Find(line, ':');
    if IsField(line) {
      assert line == line[..n] + ":" + line[n + 1..];
      assert Reads(line, line[..n], line[n + 1..]);
    }
    if key, value :| Reads(line, key, value) {
      ColonAt(line, key, value);
    }
  }

  /** A field sets its key to its value, replacing an earlier one; any other line changes nothing. */
  lemma OneMoreLine(lines: seq<string>, line: string, key: string, value: string)
    ensures Reads(line, key, value) ==> Fields(lines + [line]) == Fields(lines)[NormalizeKey(key) := Strip(value)]
    ensures !IsField(line) ==> Fields(lines + [line]) == Fields(lines)
  {
    assert (lines + [line])[..|lines|] == lines;
    if Reads(line, key, value) {
      ColonAt(line, key, value);
    }
  }

  /** The first of the four required fields that a paragraph lacks is reported. */
  lemma MissingIsReported(lines: seq<string>)
    ensures var f, r := Fields(lines), ParsePara(lines);
      && (r == Err(MissingField("Types")) <==> "Types" !in f)
      && (r == Err(MissingField("URIs")) <==> "Types" in f && "URIs" !in f)
      && (r == Err(MissingField("Suites")) <==> "Types" in f && "URIs" in f && "Suites" !in f)
      && (r == Err(MissingField("Components")) <==>
            "Types" in f && "URIs" in f && "Suites" in f && "Components" !in f)
      && (r.Ok? <==> "Types" in f && "URIs" in f && "Suites" in f && "Components" in f)
  {
  }
}
