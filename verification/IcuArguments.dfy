/**
 * The argument scanner of the message-parity gates
 * (packages/locale/src/icu-arguments.ts): two mutually recursive readers over one
 * shared index, and the functions they compute.
 */
module IcuArguments {
  import opened Chars
  import opened Strings

  /** `[\w.]` */
  predicate IsNameChar(c: char) { IsWord(c) || c == '.' }

  /** Where the run of `p` characters from `i` ends. */
  function Skip(m: string, i: nat, p: char -> bool): (j: nat)
    ensures i <= j && (i <= |m| ==> j <= |m|) && (i > |m| ==> j == i)
    ensures j < |m| ==> !p(m[j])
    decreases if i < |m| then |m| - i else 0
  {
    if i < |m| && p(m[i]) then Skip(m, i + 1, p) else i
  }

  predicate IsAt(m: string, i: nat, c: char) { i < |m| && m[i] == c }

  datatype Found = Found(i: nat, names: set<string>)

  /** Past an apostrophe: a doubled one, a quoted stretch, or an ordinary one. */
  function AfterApostrophe(m: string, i: nat): (j: nat)
    requires i < |m|
    ensures i < j <= |m| + 1
  {
    if IsAt(m, i + 1, '\'') then i + 2
    else if IsAt(m, i + 1, '{') || IsAt(m, i + 1, '}') then Skip(m, i + 2, c => c != '\'') + 1
    else i + 1
  }

  function MessageFrom(m: string, i: nat, names: set<string>): (r: Found)
    requires i <= |m| + 1
    ensures i <= r.i <= |m| + 1
    decreases |m| + 1 - i
  {
    if i >= |m| || m[i] == '}' then Found(i, names)
    else if m[i] == '\'' then MessageFrom(m, AfterApostrophe(m, i), names)
    else if m[i] == '{' then
      var a := ArgumentFrom(m, i + 1, names);
      MessageFrom(m, a.i, a.names)
    else MessageFrom(m, i + 1, names)
  }

  /** Where the name read just past a `{` starts and ends, and where the blanks after it end. */
  datatype Header = Header(start: nat, end: nat, next: nat)

  function HeaderAt(m: string, i: nat): (h: Header)
    requires i <= |m|
    ensures i <= h.start <= h.end <= h.next <= |m|
  {
    var start := Skip(m, i, IsSpace);
    var end := Skip(m, start, IsNameChar);
    Header(start, end, Skip(m, end, IsSpace))
  }

  function WithName(names: set<string>, name: string): set<string> {
    if name == "" then names else names + {name}
  }

  function ArgumentFrom(m: string, i: nat, names: set<string>): (r: Found)
    requires i <= |m|
    ensures i <= r.i <= |m| + 1
    decreases |m| + 1 - i, 1
  {
    var h := HeaderAt(m, i);
    AfterName(m, h.next, WithName(names, m[h.start..h.end]))
  }

  function AfterName(m: string, next: nat, found: set<string>): (r: Found)
    requires next <= |m|
    ensures next <= r.i <= |m| + 1
    decreases |m| + 1 - next, 0
  {
    if IsAt(m, next, '}') then Found(next + 1, found)
    else if !IsAt(m, next, ',') then Found(Skip(m, next, c => c != '}') + 1, found)
    else StyleFrom(m, next + 1, found)
  }

  /** The style section: text up to its `}`, and sub-messages. */
  function StyleFrom(m: string, i: nat, names: set<string>): (r: Found)
    requires i <= |m| + 1
    ensures i <= r.i <= |m| + 1
    decreases |m| + 1 - i
  {
    if i >= |m| then Found(i, names)
    else if m[i] == '}' then Found(i + 1, names)
    else if m[i] == '{' then
      var body := MessageFrom(m, i + 1, names);
      StyleFrom(m, if IsAt(m, body.i, '}') then body.i + 1 else body.i, body.names)
    else StyleFrom(m, i + 1, names)
  }

  /** The set of names `icuArgumentNames` collects. */
  function Names(message: string): set<string> { MessageFrom(message, 0, {}).names }

  // ----- The scanner as the source runs it -----

  class Scanner {
    const message: string
    var i: nat
    var names: set<string>

    constructor (message: string)
      ensures this.message == message && i == 0 && names == {}
    {
      this.message, i, names := message, 0, {};
    }

    function At(): Found
      reads this
    {
      Found(i, names)
    }

    method SkipWhile(p: char -> bool)
      modifies this`i
      ensures i == Skip(message, old(i), p)
    {
      while i < |message| && p(message[i])
        invariant Skip(message, i, p) == Skip(message, old(i), p)
        decreases |message| - i
      {
        i := i + 1;
      }
    }

    method ReadMessage()
      requires i <= |message| + 1
      modifies this
      ensures At() == MessageFrom(message, old(i), old(names))
      decreases |message| + 1 - i, 1
    {
      while i < |message|
        invariant old(i) <= i <= |message| + 1
        invariant MessageFrom(message, i, names) == MessageFrom(message, old(i), old(names))
        decreases |message| + 1 - i
      {
        var ch := message[i];
        if ch == '}' { return; }
        if ch == '\'' {
          if IsAt(message, i + 1, '\'') {
            i := i + 2;
          } else if IsAt(message, i + 1, '{') || IsAt(message, i + 1, '}') {
            i := i + 2;
            SkipWhile(c => c != '\'');
            i := i + 1;
          } else {
            i := i + 1;
          }
        } else if ch == '{' {
          i := i + 1;
          ReadArgument();
        } else {
          i := i + 1;
        }
      }
    }

    method ReadArgument()
      requires i <= |message|
      modifies this
      ensures At() == ArgumentFrom(message, old(i), old(names))
      decreases |message| + 1 - i, 2
    {
      SkipWhile(IsSpace);
      var start := i;
      var name := "";
      while i < |message| && IsNameChar(message[i])
        invariant start <= i <= |message| && name == message[start..i] && names == old(names)
        invariant Skip(message, i, IsNameChar) == Skip(message, start, IsNameChar)
        decreases |message| - i
      {
        name := name + [message[i]];
        i := i + 1;
      }
      if name != "" { names := names + {name}; }
      SkipWhile(IsSpace);
      assert i == HeaderAt(message, old(i)).next && names == WithName(old(names), name);
      ReadAfterName();
    }

    /** The rest of an argument, from behind its name. */
    method ReadAfterName()
      requires i <= |message|
      modifies this
      ensures At() == AfterName(message, old(i), old(names))
      decreases |message| + 1 - i, 1
    {
      if IsAt(message, i, '}') {
        i := i + 1;
        return;
      }
      if !IsAt(message, i, ',') {
        SkipWhile(c => c != '}');
        i := i + 1;
        return;
      }
      i := i + 1;
      ReadStyle();
    }

    method ReadStyle()
      requires i <= |message| + 1
      modifies this
      ensures At() == StyleFrom(message, old(i), old(names))
      decreases |message| + 1 - i, 0
    {
      while i < |message|
        invariant old(i) <= i <= |message| + 1
        invariant StyleFrom(message, i, names) == StyleFrom(message, old(i), old(names))
        decreases |message| + 1 - i
      {
        var ch := message[i];
        if ch == '}' {
          i := i + 1;
          return;
        }
        i := i + 1;
        if ch == '{' {
          ReadMessage();
          if IsAt(message, i, '}') { i := i + 1; }
        }
      }
    }
  }

  // ----- The sorted list -----

  ghost predicate StrictlySorted(names: seq<string>) {
    forall j, k :: 0 <= j < k < |names| ==> Precedes(names[j], names[k])
  }

  ghost function ElementsOf(names: seq<string>): set<string> { set n | n in names }

  method InsertSorted(sorted: seq<string>, name: string) returns (r: seq<string>)
    requires StrictlySorted(sorted) && name !in sorted
    ensures StrictlySorted(r) && ElementsOf(r) == ElementsOf(sorted) + {name}
  {
    var k := 0;
    while k < |sorted| && Precedes(sorted[k], name)
      invariant 0 <= k <= |sorted|
      invariant forall j :: 0 <= j < k ==> Precedes(sorted[j], name)
    {
      k := k + 1;
    }
    r := sorted[..k] + [name] + sorted[k..];
    if k < |sorted| { PrecedesIsTotal(sorted[k], name); }
    forall j | k <= j < |sorted| ensures Precedes(name, sorted[j]) {
      if j > k { PrecedesIsTransitive(name, sorted[k], sorted[j]); }
    }
    assert forall n :: n in r <==> n in sorted || n == name;
  }

  /** `[...names].sort()` */
  method SortNames(names: set<string>) returns (r: seq<string>)
    ensures StrictlySorted(r) && ElementsOf(r) == names
  {
    var left := names;
    r := [];
    while left != {}
      invariant left <= names && StrictlySorted(r) && ElementsOf(r) == names - left
      decreases |left|
    {
      var name :| name in left;
      assert name !in ElementsOf(r);
      r := InsertSorted(r, name);
      left := left - {name};
    }
  }

  method IcuArgumentNames(message: string) returns (r: seq<string>)
    ensures StrictlySorted(r) && ElementsOf(r) == Names(message)
  {
    var scanner := new Scanner(message);
    scanner.ReadMessage();
    r := SortNames(scanner.names);
  }

  /** The sorted list of a set is one list: equal lists are equal sets of names, and the other way round. */
  lemma {:induction false} SortedListIsUnique(a: seq<string>, b: seq<string>)
    requires StrictlySorted(a) && StrictlySorted(b) && ElementsOf(a) == ElementsOf(b)
    ensures a == b
    decreases |a|
  {
    NoElements(a);
    NoElements(b);
    if a != [] {
      assert a[0] in ElementsOf(a) && a[0] in ElementsOf(b);
      assert b[0] in ElementsOf(b) && b[0] in ElementsOf(a);
      FirstIsLeast(a, b[0]);
      FirstIsLeast(b, a[0]);
      PrecedesIsTotal(a[0], b[0]);
      TailElements(a);
      TailElements(b);
      SortedListIsUnique(a[1..], b[1..]);
    }
  }

  lemma NoElements(a: seq<string>)
    ensures ElementsOf(a) == {} <==> a == []
  {
    if a != [] { assert a[0] in ElementsOf(a); }
  }

  lemma FirstIsLeast(a: seq<string>, n: string)
    requires StrictlySorted(a) && n in a
    ensures a[0] == n || Precedes(a[0], n)
  {
  }

  lemma TailElements(a: seq<string>)
    requires a != [] && StrictlySorted(a)
    ensures StrictlySorted(a[1..]) && ElementsOf(a[1..]) == ElementsOf(a) - {a[0]}
  {
    forall n | n in a[1..] ensures n != a[0] { PrecedesIsTotal(a[0], n); }
    assert forall n :: n in a <==> n == a[0] || n in a[1..];
  }
}
