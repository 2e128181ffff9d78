/** The text encryptor (ui/tools/text_encryptor.py): `encrypt` writes the key
    and the token into the text area as a two-line envelope, `decrypt` reads
    them back from the first two lines. The Fernet cipher itself is a pair of
    parameters: `seal(key, text)` gives the token, `open(key, token)` the text
    or the exception's message. Bytes are modelled as the ASCII text they
    decode to. */
module TextEncryptor {
  import opened StringOps

  const KeyLabel := "密钥"
  const TokenLabel := "加密结果"

  /** The message of the `ValueError` raised for fewer than two lines. */
  const FormatHint := "请提供密钥和加密文本，格式为：\n密钥: xxx\n加密结果: xxx"
  /** The message of the `IndexError` raised by `split(': ')[1]` on a line without ": ". */
  const IndexOutOfRange := "list index out of range"

  const Ready := "准备就绪"
  const EncryptOk := "加密成功！密钥已生成，请妥善保管。"
  const DecryptOk := "解密成功！文本已恢复。"
  const KeyCopiedNote := "密钥已复制到剪贴板！"
  const ResultCopiedNote := "结果已复制到剪贴板！"

  datatype Parsed = Parsed(key: string, token: string) | Rejected(message: string)

  /** What Fernet's `decrypt` does with a key and a token. */
  datatype Opening = Opened(plain: string) | Refused(message: string)

  /** The text `encrypt` puts in the text area. */
  function Envelope(key: string, token: string): string {
    KeyLabel + ": " + key + "\n" + TokenLabel + ": " + token
  }

  /** `line.split(': ')[1]`, none where the index is out of range. */
  function SecondField(line: string): Option<string> {
    var fields := Split(line, ": ");
    if |fields| < 2 then None else Some(fields[1])
  }

  /** The key and the token `decrypt` reads from the text area. */
  function ParseEnvelope(text: string): Parsed {
    var lines := Split(text, "\n");
    if |lines| < 2 then Rejected(FormatHint)
    else match (SecondField(lines[0]), SecondField(lines[1]))
      case (Some(k), Some(t)) => Parsed(k, t)
      case _ => Rejected(IndexOutOfRange)
  }

  /** A value after a tag without ':' is read back whole, provided it holds no ": ". */
  lemma FieldAfterLabel(tag: string, value: string)
    requires ':' !in tag && !IsSubstring(": ", value)
    ensures SecondField(tag + ": " + value) == Some(value)
  {
    assert ": "[..1] == ":";
    assert (tag + ":")[..|tag|] == tag;
    if IsSubstring(": ", tag + ":") {
      SubstringHeadBeforeLast(": ", tag + ":");
    }
    SplitAfterPiece(tag, ": ", value);
    SplitWithoutSeparator(value, ": ");
  }

  /** Text splits around its first line when that line holds no newline. */
  lemma FirstLine(a: string, b: string)
    requires '\n' !in a
    ensures Split(a + "\n" + b, "\n") == [a] + Split(b, "\n")
  {
    SubstringOfChar('\n', a);
    assert a + "\n"[..0] == a;
    SplitAfterPiece(a, "\n", b);
  }

  /** Text without a newline is one line. */
  lemma OneLine(a: string)
    requires '\n' !in a
    ensures Split(a, "\n") == [a]
  {
    SubstringOfChar('\n', a);
    SplitWithoutSeparator(a, "\n");
  }

  /** Whatever the labels say, the key and the token are the text after the
      first ": " of the first and second lines. */
  lemma LabelsAreNotChecked(x: string, k: string, y: string, t: string)
    requires ':' !in x && '\n' !in x && ':' !in y && '\n' !in y
    requires '\n' !in k && !IsSubstring(": ", k) && '\n' !in t && !IsSubstring(": ", t)
    ensures ParseEnvelope(x + ": " + k + "\n" + y + ": " + t) == Parsed(k, t)
  {
    var first := x + ": " + k;
    var second := y + ": " + t;
    assert '\n' !in first && '\n' !in second;
    FirstLine(first, second);
    OneLine(second);
    assert Split(first + "\n" + second, "\n") == [first, second];
    FieldAfterLabel(x, k);
    FieldAfterLabel(y, t);
    assert x + ": " + k + "\n" + y + ": " + t == first + "\n" + second;
  }

  /** Parsing what `encrypt` writes gives back its key and token, whenever
      neither holds a newline or ": " (Fernet's base64 never does). */
  lemma EnvelopeRoundTrip(k: string, t: string)
    requires '\n' !in k && !IsSubstring(": ", k) && '\n' !in t && !IsSubstring(": ", t)
    ensures ParseEnvelope(Envelope(k, t)) == Parsed(k, t)
  {
    assert ':' !in KeyLabel && '\n' !in KeyLabel;
    assert ':' !in TokenLabel && '\n' !in TokenLabel;
    LabelsAreNotChecked(KeyLabel, k, TokenLabel, t);
  }

  /** Lines after the second change nothing. */
  lemma ExtraLinesIgnored(a: string, b: string, rest: string)
    requires '\n' !in a && '\n' !in b
    ensures ParseEnvelope(a + "\n" + b + "\n" + rest) == ParseEnvelope(a + "\n" + b)
  {
    var long := Split(a + "\n" + b + "\n" + rest, "\n");
    var short := Split(a + "\n" + b, "\n");
    assert a + "\n" + b + "\n" + rest == a + "\n" + (b + "\n" + rest);
    FirstLine(a, b + "\n" + rest);
    FirstLine(b, rest);
    FirstLine(a, b);
    OneLine(b);
    assert long[0] == a && long[1] == b && |long| >= 2;
    assert short == [a, b];
  }

  /** A text of a single line is refused with the format hint, and only such a text. */
  lemma SingleLineRejected(text: string)
    ensures ParseEnvelope(text) == Rejected(FormatHint) <==> '\n' !in text
  {
    if '\n' in text {
      SubstringOfChar('\n', text);
      SplitFindsSeparator(text, "\n");
    } else {
      OneLine(text);
    }
  }

  /** A first line without ": " fails on the out-of-range index. */
  lemma MissingSeparatorRejected(a: string, b: string)
    requires '\n' !in a && !IsSubstring(": ", a)
    ensures ParseEnvelope(a + "\n" + b) == Rejected(IndexOutOfRange)
  {
    FirstLine(a, b);
    SplitWithoutSeparator(a, ": ");
  }

  /** The tool's fields: the text area, `current_key` and `current_result`
      ("" standing for both `None` and empty bytes, which `not` treats alike),
      and the status line. */
  datatype EncryptorState = EncryptorState(text: string, key: string, result: string, status: string)

  /** `encrypt` with the freshly generated `key`. */
  function Encrypted(st: EncryptorState, key: string, seal: (string, string) -> string): (r: EncryptorState)
    ensures st.text == "" ==> r == st
    ensures st.text != "" ==> r.key == key && r.text == Envelope(key, r.result)
  {
    if st.text == "" then st
    else
      var token := seal(key, st.text);
      EncryptorState(Envelope(key, token), key, token, EncryptOk)
  }

  /** `decrypt`: the result replaces the text area only when parsing and
      opening both succeed; otherwise the status line shows the error. */
  function Decrypted(st: EncryptorState, open: (string, string) -> Opening): (r: EncryptorState)
    ensures r.key == st.key
    ensures st.text == "" ==> r == st
    ensures r.text != st.text ==> r.result == r.text && r.status == DecryptOk
  {
    if st.text == "" then st
    else match ParseEnvelope(st.text)
      case Rejected(m) => st.(status := "解密失败: " + m)
      case Parsed(k, t) =>
        match open(k, t)
        case Refused(m) => st.(status := "解密失败: " + m)
        case Opened(p) => st.(text := p, result := p, status := DecryptOk)
  }

  /** Decrypting what was just encrypted restores the text, given a cipher
      that opens its own tokens and whose key and token are plain base64. */
  lemma DecryptUndoesEncrypt(st: EncryptorState, key: string,
                             seal: (string, string) -> string, open: (string, string) -> Opening)
    requires st.text != ""
    requires '\n' !in key && !IsSubstring(": ", key)
    requires '\n' !in seal(key, st.text) && !IsSubstring(": ", seal(key, st.text))
    requires open(key, seal(key, st.text)) == Opened(st.text)
    ensures Decrypted(Encrypted(st, key, seal), open)
            == EncryptorState(st.text, key, st.text, DecryptOk)
  {
    var token := seal(key, st.text);
    EnvelopeRoundTrip(key, token);
    assert Envelope(key, token) != "";
  }

  class TextEncryptor {
    var text: string
    var currentKey: string
    var currentResult: string
    var status: string

    function State(): EncryptorState
      reads this
    {
      EncryptorState(text, currentKey, currentResult, status)
    }

    constructor ()
      ensures State() == EncryptorState("", "", "", Ready)
    {
      text := "";
      currentKey := "";
      currentResult := "";
      status := Ready;
    }

    /** `encrypt`, with `key` the key Fernet generated and `seal` its encryption. */
    method Encrypt(key: string, seal: (string, string) -> string)
      modifies this
      ensures State() == Encrypted(old(State()), key, seal)
    {
      if text == "" {
        return;
      }
      currentKey := key;
      currentResult := seal(key, text);
      text := Envelope(currentKey, currentResult);
      status := EncryptOk;
    }

    /** `decrypt`, with `open` Fernet's decryption. */
    method Decrypt(open: (string, string) -> Opening)
      modifies this
      ensures State() == Decrypted(old(State()), open)
    {
      if text == "" {
        return;
      }
      var parsed := ParseEnvelope(text);
      if parsed.Rejected? {
        status := "解密失败: " + parsed.message;
        return;
      }
      var opening := open(parsed.key, parsed.token);
      if opening.Refused? {
        status := "解密失败: " + opening.message;
        return;
      }
      currentResult := opening.plain;
      text := opening.plain;
      status := DecryptOk;
    }

    /** `copy_key`: the text copied to the clipboard, none before a key exists. */
    method CopyKey() returns (copied: Option<string>)
      modifies this
      ensures currentKey == "" ==> copied == None && status == old(status)
      ensures currentKey != "" ==> copied == Some(currentKey) && status == KeyCopiedNote
      ensures text == old(text) && currentKey == old(currentKey) && currentResult == old(currentResult)
    {
      if currentKey == "" {
        return None;
      }
      copied := Some(currentKey);
      status := KeyCopiedNote;
    }

    /** `copy_result`: the text copied to the clipboard, none before a result exists. */
    method CopyResult() returns (copied: Option<string>)
      modifies this
      ensures currentResult == "" ==> copied == None && status == old(status)
      ensures currentResult != "" ==> copied == Some(currentResult) && status == ResultCopiedNote
      ensures text == old(text) && currentKey == old(currentKey) && currentResult == old(currentResult)
    {
      if currentResult == "" {
        return None;
      }
      copied := Some(currentResult);
      status := ResultCopiedNote;
    }
  }
}
