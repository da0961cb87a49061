// Strings as the gateway handles them: JavaScript white space, trim(), and
// newline-delimited framing.  Everything that is fed text in pieces (the
// JSON-RPC client, the CLI stream reader, the aggregate text of a turn) is
// compared with these whole-text definitions.
module Text {
  type Byte = b: int | 0 <= b < 256

  // The white space removed by String.prototype.trim and matched by \s.
  predicate IsSpace(c: char) {
    || c == '\t' || c == '\n' || c == '\U{000B}' || c == '\U{000C}' || c == '\r' || c == ' '
    || c == '\U{00A0}' || c == '\U{1680}' || '\U{2000}' <= c <= '\U{200A}'
    || c == '\U{2028}' || c == '\U{2029}' || c == '\U{202F}' || c == '\U{205F}'
    || c == '\U{3000}' || c == '\U{FEFF}'
  }

  function TrimStart(s: string): (r: string)
    ensures r == "" || !IsSpace(r[0])
    ensures |r| <= |s| && s[|s| - |r|..] == r
  {
    if s == "" then "" else if IsSpace(s[0]) then TrimStart(s[1..]) else s
  }

  function TrimEnd(s: string): (r: string)
    ensures r == "" || !IsSpace(r[|r| - 1])
    ensures r <= s
  {
    if s == "" then "" else if IsSpace(s[|s| - 1]) then TrimEnd(s[..|s| - 1]) else s
  }

  function Trim(s: string): string {
    TrimEnd(TrimStart(s))
  }

  // A trimmed string starts and ends with a character that is not white space.
  lemma TrimEdges(s: string)
    ensures Trim(s) != "" ==> !IsSpace(Trim(s)[0]) && !IsSpace(Trim(s)[|Trim(s)| - 1])
  {
    var t := TrimStart(s);
    assert TrimEnd(t) <= t;
  }

  lemma SolidText(s: string)
    ensures s == "" || (!IsSpace(s[0]) && !IsSpace(s[|s| - 1])) ==> Trim(s) == s
  {
  }

  lemma TrimIdempotent(s: string)
    ensures Trim(Trim(s)) == Trim(s)
  {
    TrimEdges(s);
  }

  lemma {:induction false} TrimEndExtends(s: string, t: string)
    ensures TrimEnd(s) <= TrimEnd(s + t)
    decreases |t|
  {
    if t == "" {
      assert s + t == s;
    } else {
      assert (s + t)[..|s + t| - 1] == s + t[..|t| - 1];
      TrimEndExtends(s, t[..|t| - 1]);
      assert s <= s + t;
    }
  }

  lemma {:induction false} TrimStartAppend(s: string, t: string)
    ensures TrimStart(s) != "" ==> TrimStart(s + t) == TrimStart(s) + t
  {
    if s != "" && IsSpace(s[0]) {
      assert (s + t)[1..] == s[1..] + t;
      TrimStartAppend(s[1..], t);
    }
  }

  // Appending to a text only ever extends its trimmed form.
  lemma TrimExtends(s: string, t: string)
    ensures Trim(s) <= Trim(s + t)
  {
    if TrimStart(s) != "" {
      TrimStartAppend(s, t);
      TrimEndExtends(TrimStart(s), t);
    }
  }

  lemma {:induction false} TrimStartSkips(s: string, t: string)
    ensures TrimStart(s) == "" ==> TrimStart(s + t) == TrimStart(t)
  {
    if s == "" {
      assert s + t == t;
    } else if IsSpace(s[0]) {
      assert (s + t)[1..] == s[1..] + t;
      TrimStartSkips(s[1..], t);
    }
  }

  lemma {:induction false} TrimEndAppend(s: string, t: string)
    ensures TrimEnd(s + t) == if TrimEnd(t) != "" then s + TrimEnd(t) else TrimEnd(s)
    decreases |t|
  {
    if t == "" {
      assert s + t == s;
    } else {
      var n := |t| - 1;
      assert (s + t)[..|s + t| - 1] == s + t[..n];
      if IsSpace(t[n]) {
        TrimEndAppend(s, t[..n]);
      }
    }
  }

  // A text of white space only is trimmed away from both ends.
  lemma {:induction false} TrimsAgree(s: string)
    ensures TrimStart(s) == "" <==> TrimEnd(s) == ""
    decreases |s|
  {
    hide TrimEnd;
    if s == "" {
      NothingToTrim();
    } else {
      TrimsAgree(s[1..]);
      assert s == [s[0]] + s[1..];
      TrimEndAppend([s[0]], s[1..]);
      TrimEndOfOne(s[0]);
    }
  }

  lemma TrimEndOfOne(c: char)
    ensures TrimEnd([c]) == if IsSpace(c) then "" else [c]
  {
    assert TrimEnd("") == "" && [c][..0] == "";
  }

  // Inserting a text into another one never makes the trimmed form shorter, and longer
  // unless it only extends it.
  lemma TrimInsert(a: string, d: string, b: string)
    requires d != ""
    ensures |Trim(a + b)| <= |Trim(a + d + b)|
    ensures Trim(a + b) <= Trim(a + d + b) || |Trim(a + b)| < |Trim(a + d + b)|
  {
    hide TrimStart, TrimEnd;
    assert a + d + b == a + (d + b);
    TrimsAgree(b);
    if TrimStart(a) == "" {
      TrimStartSkips(a, b);
      TrimStartSkips(a, d + b);
      InsertBefore(d, b);
    } else {
      TrimStartAppend(a, b);
      TrimStartAppend(a, d + b);
      TrimEndAppend(TrimStart(a), b);
      TrimEndAppend(d, b);
      TrimEndAppend(TrimStart(a), d + b);
      if TrimEnd(b) == "" {
        TrimEndExtends(TrimStart(a), d + b);
      }
    }
  }

  lemma InsertBefore(d: string, b: string)
    ensures Trim(b) == Trim(d + b) || Trim(b) == "" || |Trim(b)| < |Trim(d + b)|
  {
    hide TrimStart, TrimEnd;
    if TrimStart(d) == "" {
      TrimStartSkips(d, b);
    } else {
      TrimStartAppend(d, b);
      TrimEndAppend(TrimStart(d), b);
      TrimNeverLonger(b);
    }
  }

  lemma TrimNeverLonger(b: string)
    ensures |Trim(b)| <= |TrimEnd(b)|
    ensures TrimEnd(b) == "" ==> Trim(b) == ""
  {
    hide TrimStart, TrimEnd;
    var t := TrimStart(b);
    var front := b[..|b| - |t|];
    assert b == front + t;
    TrimEndAppend(front, t);
    TrimsAgree(b);
    NothingToTrim();
  }

  lemma NothingToTrim()
    ensures TrimStart("") == "" && TrimEnd("") == ""
  {
  }

  // ---- size ----

  // Buffer.byteLength
  function ByteLength(s: string): nat {
    if s == "" then 0
    else ByteLength(s[..|s| - 1]) + Utf8Width(s[|s| - 1])
  }

  function Utf8Width(c: char): nat {
    if c as int < 0x80 then 1 else if c as int < 0x800 then 2 else if c as int < 0x10000 then 3 else 4
  }

  lemma {:induction false} ByteLengthAppend(s: string, t: string)
    ensures ByteLength(s + t) == ByteLength(s) + ByteLength(t)
    decreases |t|
  {
    if t == "" {
      assert s + t == s;
    } else {
      ByteLengthAppend(s, t[..|t| - 1]);
      assert (s + t)[..|s + t| - 1] == s + t[..|t| - 1];
    }
  }

  // ---- newline framing ----

  // s.indexOf("\n"), or |s| where JavaScript answers -1.
  function NewlineAt(s: string): (i: nat)
    ensures i <= |s|
    ensures i < |s| ==> s[i] == '\n'
    ensures forall j :: 0 <= j < i ==> s[j] != '\n'
  {
    if s == "" || s[0] == '\n' then 0 else 1 + NewlineAt(s[1..])
  }

  // The newline-terminated lines of a text, terminators removed.
  function Lines(s: string): seq<string>
    decreases |s|
  {
    var i := NewlineAt(s);
    if i == |s| then [] else [s[..i]] + Lines(s[i + 1..])
  }

  // What follows the last newline.
  function Rest(s: string): (r: string)
    ensures NewlineAt(r) == |r|
    decreases |s|
  {
    var i := NewlineAt(s);
    if i == |s| then s else Rest(s[i + 1..])
  }

  lemma {:induction false} FirstOfLines(s: string)
    ensures var i := NewlineAt(s);
      if i == |s| then Lines(s) == [] && Rest(s) == s
      else Lines(s) == [s[..i]] + Lines(s[i + 1..]) && Rest(s) == Rest(s[i + 1..])
  {
    hide NewlineAt;
  }

  // Framing does not depend on where a text is cut: the lines of a + b are the
  // lines of a followed by the lines of (unfinished rest of a) + b.
  lemma {:induction false} FramingIsChunkIndependent(a: string, b: string)
    ensures Lines(a + b) == Lines(a) + Lines(Rest(a) + b)
    ensures Rest(a + b) == Rest(Rest(a) + b)
    decreases |a|
  {
    hide Lines, Rest;
    var i := NewlineAt(a);
    FirstOfLines(a);
    if i < |a| {
      FirstOfLines(a + b);
      assert NewlineAt(a + b) == i by {
        assert (a + b)[i] == '\n';
        assert forall k :: 0 <= k < i ==> (a + b)[k] == a[k];
      }
      assert (a + b)[..i] == a[..i];
      assert (a + b)[i + 1..] == a[i + 1..] + b;
      FramingIsChunkIndependent(a[i + 1..], b);
    }
  }

  lemma FirstBreak(s: string, t: string)
    requires NewlineAt(s) == |s|
    ensures NewlineAt(s + "\n" + t) == |s| && (s + "\n" + t)[..|s|] == s && (s + "\n" + t)[|s| + 1..] == t
  {
    var all := s + "\n" + t;
    assert all[|s|] == '\n' && forall i :: 0 <= i < |s| ==> all[i] == s[i];
  }
}
