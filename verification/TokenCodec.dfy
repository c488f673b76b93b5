/**
 The reversible text encryption used for passwords and tokens: padding, a block cipher, base64,
 and an escape for the slash. Cipher, base64 and UTF-8 are given; what is proved is what the
 padding and the escape add to them.
 */
module TokenCodec {
  import opened Common

  type Bytes = seq<int>

  const ESCAPED: string := "1abc1"
  /** A text that escaping turns into the escape sequence and more. */
  const AMBIGUOUS: string := "1abc/"

  // ------------------------------------------------------------ replacing

  predicate StartsWith(s: string, p: string) {
    |p| <= |s| && s[..|p|] == p
  }

  predicate Contains(s: string, p: string) {
    StartsWith(s, p) || (s != [] && Contains(s[1..], p))
  }

  /** Replaces every occurrence of `what`, left to right and without overlap. */
  function Replace(s: string, what: string, with_: string): (r: string)
    requires what != []
  {
    if s == [] then []
    else if StartsWith(s, what) then with_ + Replace(s[|what|..], what, with_)
    else [s[0]] + Replace(s[1..], what, with_)
  }

  lemma {:induction false} ReplaceNothing(s: string, what: string, with_: string)
    requires what != [] && !Contains(s, what)
    ensures Replace(s, what, with_) == s
  {
    if s != [] {
      ReplaceNothing(s[1..], what, with_);
      assert s == [s[0]] + s[1..];
    }
  }

  lemma StartsEarlier(a: string, what: string, b: string)
    requires what != [] && a != []
    ensures StartsWith(a + what + b, what) ==> StartsWith(a + what[..|what| - 1], what)
  {
    assert (a + what + b)[..|what|] == (a + what[..|what| - 1])[..|what|];
  }

  /**
   Replacing goes on behind the first occurrence, the one before whose end no other one ends.
   Together with `ReplaceNothing` this says what becomes of any text.
   */
  lemma {:induction false} ReplaceFirst(a: string, what: string, b: string, with_: string)
    requires what != [] && !Contains(a + what[..|what| - 1], what)
    ensures Replace(a + what + b, what, with_) == a + with_ + Replace(b, what, with_)
  {
    var s := a + what + b;
    if a == [] {
      assert s[..|what|] == what && s[|what|..] == b;
    } else {
      var shorter := a + what[..|what| - 1];
      StartsEarlier(a, what, b);
      assert shorter[1..] == a[1..] + what[..|what| - 1];
      assert s[1..] == a[1..] + what + b;
      ReplaceFirst(a[1..], what, b, with_);
      assert [s[0]] + (a[1..] + with_ + Replace(b, what, with_)) == a + with_ + Replace(b, what, with_);
    }
  }

  function ChangeChart(text: string, escape: bool): (r: string) {
    if escape then Replace(text, "/", ESCAPED) else Replace(text, ESCAPED, "/")
  }

  function Escape(t: string): (r: string) {
    ChangeChart(t, true)
  }

  lemma EscapeCons(t: string)
    requires t != []
    ensures Escape(t) == if t[0] == '/' then ESCAPED + Escape(t[1..]) else [t[0]] + Escape(t[1..])
  {
    assert StartsWith(t, "/") <==> t[0] == '/';
  }

  lemma SlashAndBack()
    ensures ChangeChart("/", true) == "1abc1" && ChangeChart("1abc1", false) == "/"
  {
    EscapeCons("/");
    UnescapeEscaped([]);
    assert ESCAPED + [] == "1abc1";
  }

  lemma UnescapeEscaped(rest: string)
    ensures ChangeChart(ESCAPED + rest, false) == "/" + ChangeChart(rest, false)
  {
    var s := ESCAPED + rest;
    assert s[..5] == ESCAPED && s[5..] == rest;
  }

  /** Escaping keeps what comes before the first slash. */
  lemma {:induction false} EscapeKeepsPrefix(p: string, rest: string)
    requires '/' !in p
    ensures Escape(p + rest) == p + Escape(rest)
  {
    if p == [] {
      assert p + rest == rest;
    } else {
      EscapeCons(p + rest);
      EscapeKeepsPrefix(p[1..], rest);
      assert (p + rest)[1..] == p[1..] + rest;
    }
  }

  /** The escaped text begins with the escape sequence just when the text begins with a slash, that sequence or the ambiguous one. */
  lemma EscapedStart(t: string)
    ensures StartsWith(Escape(t), ESCAPED) <==> StartsWith(t, "/") || StartsWith(t, ESCAPED) || StartsWith(t, AMBIGUOUS)
  {
    var n := PlainPrefix(t);
    assert t == t[..n] + t[n..];
    EscapeKeepsPrefix(t[..n], t[n..]);
    var e := Escape(t);
    if n < 4 {
      if n < |t| {
        EscapeCons(t[n..]);
        assert t[n..][0] == t[n] == '/';
        assert e[n] == '1';
      } else {
        assert t[n..] == [];
      }
    } else {
      assert e[..4] == t[..4];
      if |t| > 4 { EscapeCons(t[4..]); }
      if n == 4 {
        if |t| > 4 {
          assert t[4..][0] == t[4] == '/' && e[4] == '1';
          Five(e, ESCAPED);
          Five(t, AMBIGUOUS);
          Five(t, ESCAPED);
        }
      } else {
        assert e[4] == t[4];
        Five(e, ESCAPED);
        Five(t, ESCAPED);
        Five(t, AMBIGUOUS);
      }
    }
  }

  lemma Five(s: string, p: string)
    requires |s| >= 5 && |p| == 5
    ensures StartsWith(s, p) <==> s[0] == p[0] && s[1] == p[1] && s[2] == p[2] && s[3] == p[3] && s[4] == p[4]
  {
  }

  /** How many of the first five letters come before a slash. */
  function PlainPrefix(t: string): (n: nat)
    ensures n <= 5 && n <= |t| && forall i :: 0 <= i < n ==> t[i] != '/'
    ensures n < 5 && n < |t| ==> t[n] == '/'
  {
    if |t| == 0 || t[0] == '/' then 0
    else if |t| == 1 || t[1] == '/' then 1
    else if |t| == 2 || t[2] == '/' then 2
    else if |t| == 3 || t[3] == '/' then 3
    else if |t| == 4 || t[4] == '/' then 4
    else 5
  }

  /** Escaping is undone exactly for the texts that hold neither the escape sequence nor the ambiguous one. */
  lemma {:induction false} EscapingIsUndoneIff(t: string)
    ensures ChangeChart(ChangeChart(t, true), false) == t <==> !Contains(t, ESCAPED) && !Contains(t, AMBIGUOUS)
  {
    if t != [] {
      EscapeCons(t);
      EscapedStart(t);
      EscapingIsUndoneIff(t[1..]);
      if t[0] == '/' {
        UnescapeEscaped(Escape(t[1..]));
        assert t == "/" + t[1..];
      } else if StartsWith(Escape(t), ESCAPED) {
        assert ChangeChart(Escape(t), false)[0] == '/';
      } else {
        assert Escape(t)[1..] == Escape(t[1..]);
        assert t == [t[0]] + t[1..];
      }
    }
  }

  lemma {:induction false} EscapeConcat(a: string, b: string)
    ensures Escape(a + b) == Escape(a) + Escape(b)
  {
    if a == [] {
      assert a + b == b;
    } else {
      var first := if a[0] == '/' then ESCAPED else [a[0]];
      EscapeCons(a);
      EscapeCons(a + b);
      assert (a + b)[1..] == a[1..] + b;
      EscapeConcat(a[1..], b);
      Associate(first, Escape(a[1..]), Escape(b));
    }
  }

  lemma {:induction false} SplitAround(s: string, p: string) returns (a: string, b: string)
    requires Contains(s, p)
    ensures s == a + p + b
  {
    if StartsWith(s, p) {
      a, b := [], s[|p|..];
    } else {
      a, b := SplitAround(s[1..], p);
      a := [s[0]] + a;
    }
  }

  lemma {:induction false} ContainsMiddle(a: string, p: string, b: string)
    ensures Contains(a + p + b, p)
  {
    if a == [] {
      assert (a + p + b)[..|p|] == p;
    } else {
      ContainsMiddle(a[1..], p, b);
      assert (a + p + b)[1..] == a[1..] + p + b;
    }
  }

  lemma EscapePlain(t: string)
    requires '/' !in t
    ensures Escape(t) == t
  {
    EscapeKeepsPrefix(t, []);
    assert t + [] == t;
  }

  /** Around a slash and around the sequence that stands for it, the escaped texts are the same. */
  lemma EscapeAround(a: string, b: string)
    ensures Escape(a + "/" + b) == Escape(a + ESCAPED + b) == Escape(a) + ESCAPED + Escape(b)
  {
    EscapeConcat(a + "/", b);
    EscapeConcat(a, "/");
    EscapeConcat(a + ESCAPED, b);
    EscapeConcat(a, ESCAPED);
    EscapeCons("/");
    EscapePlain(ESCAPED);
  }

  lemma SlashIsEscaped(t: string)
    requires '/' in t
    ensures Contains(Escape(t), ESCAPED)
  {
    var i :| 0 <= i < |t| && t[i] == '/';
    assert t == t[..i] + "/" + t[i + 1..];
    EscapeAround(t[..i], t[i + 1..]);
    ContainsMiddle(Escape(t[..i]), ESCAPED, Escape(t[i + 1..]));
  }

  /** Another text with the same escaped form, if this one has a slash or the escape sequence. */
  lemma Twin(t: string) returns (u: string)
    requires '/' in t || Contains(t, ESCAPED)
    ensures u != t && Escape(u) == Escape(t)
  {
    if '/' in t {
      var i :| 0 <= i < |t| && t[i] == '/';
      assert t == t[..i] + "/" + t[i + 1..];
      u := t[..i] + ESCAPED + t[i + 1..];
      EscapeAround(t[..i], t[i + 1..]);
      assert |u| == |t| + 4;
    } else {
      var a, b := SplitAround(t, ESCAPED);
      u := a + "/" + b;
      EscapeAround(a, b);
      assert |t| == |u| + 4;
    }
  }

  /** A text shares its escaped form with another one exactly when it holds a slash or the escape sequence. */
  lemma SharedEscapedFormIff(t: string)
    ensures (exists u :: u != t && Escape(u) == Escape(t)) <==> '/' in t || Contains(t, ESCAPED)
  {
    if '/' in t || Contains(t, ESCAPED) {
      var u := Twin(t);
    } else {
      EscapePlain(t);
      forall u | Escape(u) == Escape(t) ensures u == t {
        if '/' in u { SlashIsEscaped(u); } else { EscapePlain(u); }
      }
    }
  }

  // ------------------------------------------------------------ padding

  function Nuls(n: nat): (r: string)
    ensures |r| == n && forall i :: 0 <= i < n ==> r[i] == '\0'
  {
    if n == 0 then [] else Nuls(n - 1) + ['\0']
  }

  /** How far a length is from the next multiple of 16. */
  function Missing(n: nat): (k: nat)
    ensures k < 16 && (n + k) % 16 == 0
  {
    (16 - n % 16) % 16
  }

  lemma MissingIsLeast(n: nat, k: nat)
    ensures k < Missing(n) ==> (n + k) % 16 != 0
  {
  }

  function Padded(value: string): (r: string) {
    value + Nuls(Missing(|value|))
  }

  /** Appends NULs until the length is a multiple of 16: the least number that does it. */
  method AddTo16(value: string) returns (r: string)
    ensures |r| % 16 == 0 && |value| <= |r| < |value| + 16
    ensures r == value + Nuls(|r| - |value|)
    ensures r == Padded(value)
  {
    r := value;
    ghost var k := 0;
    while |r| % 16 != 0
      invariant k <= Missing(|value|)
      invariant r == value + Nuls(k)
      decreases Missing(|value|) - k
    {
      r := r + ['\0'];
      k := k + 1;
    }
    MissingIsLeast(|value|, k);
  }

  /** All NULs taken out. */
  function StripNuls(s: string): (r: string) {
    if s == [] then [] else if Last(s) == '\0' then StripNuls(Init(s)) else StripNuls(Init(s)) + [Last(s)]
  }

  lemma {:induction false} StripNulsOfPadding(s: string, n: nat)
    ensures StripNuls(s + Nuls(n)) == StripNuls(s)
  {
    if n == 0 {
      assert s + Nuls(0) == s;
    } else {
      StripNulsOfPadding(s, n - 1);
      assert Init(s + Nuls(n)) == s + Nuls(n - 1) && Last(s + Nuls(n)) == '\0';
    }
  }

  lemma {:induction false} StripNulsIff(s: string)
    ensures |StripNuls(s)| <= |s|
    ensures StripNuls(s) == s <==> '\0' !in s
  {
    if s != [] {
      StripNulsIff(Init(s));
      assert s == Init(s) + [Last(s)];
    }
  }

  // ------------------------------------------------------------ encrypting

  /** The libraries: UTF-8, the block cipher under the local key, and base64. */
  datatype Library = Library(
    encode: string -> Bytes,
    decode: Bytes -> Option<string>,
    encryptBlocks: Bytes -> Bytes,
    decryptBlocks: Bytes -> Bytes,
    encode64: Bytes -> string,
    decode64: string -> Option<Bytes>)

  /** Each library undoes itself; an ASCII text has as many bytes as letters. */
  ghost predicate Inverts(lib: Library) {
    && (forall s :: lib.decode(lib.encode(s)) == Some(s))
    && (forall s :: Ascii(s) ==> |lib.encode(s)| == |s|)
    && (forall b :: |b| % 16 == 0 ==> lib.decryptBlocks(lib.encryptBlocks(b)) == b && |lib.encryptBlocks(b)| % 16 == 0)
    && (forall b :: lib.decode64(lib.encode64(b)) == Some(b))
  }

  predicate Ascii(s: string) {
    forall i :: 0 <= i < |s| ==> s[i] < 128 as char
  }

  datatype Error = NotWholeBlocks | BadBase64 | BadUtf8

  /** The base64 text of the cipher, before its slashes are escaped. */
  function CipherText(lib: Library, text: string): (r: Result<string, Error>) {
    var bytes := lib.encode(Padded(text));
    if |bytes| % 16 != 0 then Err(NotWholeBlocks) else Ok(lib.encode64(lib.encryptBlocks(bytes)))
  }

  function Encrypt(lib: Library, text: string): (r: Result<string, Error>) {
    match CipherText(lib, text)
    case Err(e) => Err(e)
    case Ok(cipher) => Ok(ChangeChart(cipher, true))
  }

  function Decrypt(lib: Library, text: string): (r: Result<string, Error>) {
    match lib.decode64(ChangeChart(text, false))
    case None => Err(BadBase64)
    case Some(bytes) =>
      if |bytes| % 16 != 0 then Err(NotWholeBlocks)
      else
        match lib.decode(lib.decryptBlocks(bytes))
        case None => Err(BadUtf8)
        case Some(padded) => Ok(StripNuls(padded))
  }

  lemma {:induction false} NoSlashRemains(t: string)
    ensures '/' !in Escape(t)
  {
    if t != [] {
      EscapeCons(t);
      NoSlashRemains(t[1..]);
    }
  }

  /** What is encrypted can stand in a path: it has no slash, and a base64 text without one is left as it is. */
  lemma EncryptedHasNoSlash(lib: Library, s: string)
    requires CipherText(lib, s).Ok?
    ensures Encrypt(lib, s).Ok? && '/' !in Encrypt(lib, s).value
    ensures '/' !in CipherText(lib, s).value ==> Encrypt(lib, s) == CipherText(lib, s)
  {
    NoSlashRemains(CipherText(lib, s).value);
    if '/' !in CipherText(lib, s).value { EscapePlain(CipherText(lib, s).value); }
  }

  /** Encrypting fails just when the padded text does not fill whole blocks as bytes. */
  lemma EncryptFailsIff(lib: Library, s: string)
    ensures Encrypt(lib, s) == Err(NotWholeBlocks) <==> |lib.encode(Padded(s))| % 16 != 0
    ensures Encrypt(lib, s).Err? ==> Encrypt(lib, s) == Err(NotWholeBlocks)
  {
  }

  /** Decrypting gives the text back without its NULs, if the base64 text is one whose escaping can be undone. */
  lemma DecryptUndoesEncrypt(lib: Library, s: string)
    requires Inverts(lib) && CipherText(lib, s).Ok?
    requires !Contains(CipherText(lib, s).value, ESCAPED) && !Contains(CipherText(lib, s).value, AMBIGUOUS)
    ensures Encrypt(lib, s).Ok?
    ensures Decrypt(lib, Encrypt(lib, s).value) == Ok(StripNuls(s))
    ensures Decrypt(lib, Encrypt(lib, s).value) == Ok(s) <==> '\0' !in s
  {
    EscapingIsUndoneIff(CipherText(lib, s).value);
    StripNulsOfPadding(s, Missing(|s|));
    StripNulsIff(s);
  }

  /** An ASCII text always fills whole blocks. */
  lemma AsciiIsEncrypted(lib: Library, s: string)
    requires Inverts(lib) && Ascii(s)
    ensures CipherText(lib, s).Ok?
  {
    assert Ascii(Padded(s));
  }
}
