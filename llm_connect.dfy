/** The provider client: selecting one of three hosted model back ends by
    name, turning an uploaded document into text, rewriting the last message
    into the prompt actually sent, calling the back end, saving the exchange and
    turning every failure into a displayable string. */
module Llm {
  import opened Wrappers
  import opened Py
  import opened Db

  /** One entry of a message list: `{"role": ..., "content": ...}`. */
  datatype Message = Message(role: string, content: string)

  // ---------------------------------------------------------------------------
  // Provider selection
  // ---------------------------------------------------------------------------

  datatype Provider = Gemini | OpenAI | Grok

  /** The lower-case name each provider is selected by. */
  function ProviderName(p: Provider): string {
    match p
    case Gemini => "gemini"
    case OpenAI => "openai"
    case Grok => "grok"
  }

  /** The case-insensitive comparison `name.lower() == "..."` that both the
      factory and the constructor branch on: a provider is chosen exactly when
      the lower-cased name is one of the three names. */
  function ParseProvider(name: string): (r: Option<Provider>)
    ensures r.Some? ==> ProviderName(r.value) == Lower(name)
    ensures r.None? ==> forall p :: ProviderName(p) != Lower(name)
  {
    var n := Lower(name);
    if n == "gemini" then Some(Gemini)
    else if n == "openai" then Some(OpenAI)
    else if n == "grok" then Some(Grok)
    else None
  }

  /** Each provider's own name selects it. */
  lemma ProviderNameParses(p: Provider)
    ensures ParseProvider(ProviderName(p)) == Some(p)
  {
    LowerOfLowercase(ProviderName(p));
  }

  /** Selection ignores case: a name selects `p` exactly when it lower-cases to
      `p`'s name, so names that differ only in case select the same provider. */
  lemma ParseProviderIgnoresCase(name: string, p: Provider)
    ensures ParseProvider(name) == Some(p) <==> Lower(name) == ProviderName(p)
    ensures ParseProvider(name) == ParseProvider(Lower(name))
  {
    var n := Lower(name);
    assert Lower(n) == n;
  }

  /** A name ending in the KELVIN SIGN, which lower-cases to `k`, selects Grok,
      as `"gro\u212a".lower() == "grok"` makes it do. */
  lemma KelvinSignSelectsGrok()
    ensures ParseProvider("gro" + [KelvinSign]) == Some(Grok)
    ensures GetLlmConfig("gro" + [KelvinSign], map[]).Ok?
  {
    assert Lower("gro" + [KelvinSign]) == "grok";
  }

  /** `LLMConfig`. */
  datatype LlmConfig = LlmConfig(provider: string, apiKey: Option<string>, model: Option<string>)

  /** The SDK client `_initialize_client` builds, recorded by the arguments it
      passes: the key given to `genai.configure` and the model name given to
      `GenerativeModel`, or the key and optional base URL given to `OpenAI`.
      What the SDKs then do with a missing key is not part of this model. */
  datatype ClientSetup =
    | GenerativeModel(apiKey: Option<string>, modelName: string)
    | ChatClient(apiKey: Option<string>, baseUrl: Option<string>)

  const GeminiModelName := "gemini-2.0-flash"
  const XaiBaseUrl := "https://api.x.ai/v1"
  const XaiKeyEnv := "XAI_API_KEY"

  /** `_initialize_client`: builds the client for the configured provider, or
      raises `ValueError` for any other name. The Grok client ignores the
      configured key and reads `XAI_API_KEY` instead. */
  function InitializeClient(config: LlmConfig, env: map<string, string>): (r: Result<ClientSetup>)
    ensures r.Ok? <==> ParseProvider(config.provider).Some?
    ensures r.Raised? ==> r.message == "Unsupported LLM provider: " + config.provider
    ensures r.Ok? && ParseProvider(config.provider).value == Gemini ==>
              r.value == GenerativeModel(config.apiKey, GeminiModelName)
    ensures r.Ok? && ParseProvider(config.provider).value == OpenAI ==>
              r.value == ChatClient(config.apiKey, None)
    ensures r.Ok? && ParseProvider(config.provider).value == Grok ==>
              r.value == ChatClient(GetEnv(env, XaiKeyEnv), Some(XaiBaseUrl))
  {
    match ParseProvider(config.provider)
    case Some(Gemini) => Ok(GenerativeModel(config.apiKey, GeminiModelName))
    case Some(OpenAI) => Ok(ChatClient(config.apiKey, None))
    case Some(Grok) => Ok(ChatClient(GetEnv(env, XaiKeyEnv), Some(XaiBaseUrl)))
    case None => Raised("Unsupported LLM provider: " + config.provider)
  }

  /** The environment variable `get_llm_client` reads each provider's key from. */
  function ApiKeyEnv(p: Provider): string {
    match p
    case Gemini => "GEMINI_API_KEY"
    case OpenAI => "OPENAI_API_KEY"
    case Grok => "GROK_API_KEY"
  }

  /** The configuration half of `get_llm_client`: the canonical lower-case
      provider name, that provider's key from the environment, and for OpenAI
      the default model; any other name raises `ValueError`. */
  function GetLlmConfig(provider: string, env: map<string, string>): (r: Result<LlmConfig>)
    ensures r.Ok? <==> ParseProvider(provider).Some?
    ensures r.Ok? ==> r.value.provider == ProviderName(ParseProvider(provider).value)
    ensures r.Ok? ==> r.value.apiKey == GetEnv(env, ApiKeyEnv(ParseProvider(provider).value))
    ensures r.Ok? ==> r.value.model == if ParseProvider(provider).value == OpenAI then Some(DefaultChatModel) else None
    ensures r.Raised? ==> r.message == "Unsupported provider: " + provider
  {
    match ParseProvider(provider)
    case Some(Gemini) => Ok(LlmConfig("gemini", GetEnv(env, "GEMINI_API_KEY"), None))
    case Some(OpenAI) => Ok(LlmConfig("openai", GetEnv(env, "OPENAI_API_KEY"), Some(DefaultChatModel)))
    case Some(Grok) => Ok(LlmConfig("grok", GetEnv(env, "GROK_API_KEY"), None))
    case None => Raised("Unsupported provider: " + provider)
  }

  /** The factory and the constructor accept the same names: a name the factory
      rejects is one the constructor would reject too, and the configuration the
      factory builds always passes the constructor, for the same provider. */
  lemma FactoryAgreesWithConstructor(provider: string, env: map<string, string>, key: Option<string>, model: Option<string>)
    ensures GetLlmConfig(provider, env).Raised? <==> InitializeClient(LlmConfig(provider, key, model), env).Raised?
    ensures GetLlmConfig(provider, env).Ok? ==>
              var config := GetLlmConfig(provider, env).value;
              InitializeClient(config, env).Ok? && ParseProvider(config.provider) == ParseProvider(provider)
  {
    if ParseProvider(provider).Some? {
      ProviderNameParses(ParseProvider(provider).value);
    }
  }

  /** The Grok client never sees the configured key: whatever key the
      configuration holds, the client is the same, and the `OpenAI` constructor
      is passed `os.getenv("XAI_API_KEY")`. */
  lemma GrokClientIgnoresConfiguredKey(config: LlmConfig, env: map<string, string>, key: Option<string>)
    requires ParseProvider(config.provider) == Some(Grok)
    ensures InitializeClient(config.(apiKey := key), env) == InitializeClient(config, env)
    ensures InitializeClient(config, env).value.apiKey == GetEnv(env, XaiKeyEnv)
  {
  }

  /** The Gemini and OpenAI SDK constructors are passed the configured key, so
      two configurations with different keys give different client setups. */
  lemma ClientUsesConfiguredKey(config: LlmConfig, env: map<string, string>)
    requires ParseProvider(config.provider) == Some(Gemini) || ParseProvider(config.provider) == Some(OpenAI)
    ensures InitializeClient(config, env).value.apiKey == config.apiKey
  {
  }

  /** The factory stores the Grok key from `GROK_API_KEY`, but the client is
      built with `XAI_API_KEY`: with only the former set, the configuration has a
      key and the `OpenAI` constructor is passed `None`. */
  lemma FactoryGrokKeyUnused(env: map<string, string>)
    requires ApiKeyEnv(Grok) in env && XaiKeyEnv !in env
    ensures var config := GetLlmConfig("grok", env).value;
      config.apiKey.Some? && InitializeClient(config, env).value.apiKey.None?
  {
    assert Lower("grok") == "grok";
  }

  // ---------------------------------------------------------------------------
  // Bullet formatter
  // ---------------------------------------------------------------------------

  const BulletMark := '\U{2022}'

  /** `line.strip().startswith('•')` */
  predicate IsBulletLine(line: string) {
    var s := Strip(line);
    s != [] && s[0] == BulletMark
  }

  /** Some line of `text.strip().split('\n')` is already a bullet. */
  predicate HasBulletLine(text: string) {
    var lines := Split(Strip(text), '\n');
    exists i | 0 <= i < |lines| :: IsBulletLine(lines[i])
  }

  /** The stripped, non-empty pieces among `fragments`, in order. */
  function NonEmptyStripped(fragments: seq<string>): (ss: seq<string>)
    ensures |ss| <= |fragments|
    ensures forall i :: 0 <= i < |ss| ==> ss[i] != [] && Strip(ss[i]) == ss[i]
  {
    if fragments == [] then []
    else
      var rest := NonEmptyStripped(fragments[1..]);
      var s := Strip(fragments[0]);
      if s == [] then rest
      else
        StripIdempotent(fragments[0]);
        KeepStripped(s, rest);
        [s] + rest
  }

  /** Putting one more stripped, non-empty piece in front keeps every piece so. */
  lemma KeepStripped(s: string, rest: seq<string>)
    requires s != [] && Strip(s) == s
    requires forall i :: 0 <= i < |rest| ==> rest[i] != [] && Strip(rest[i]) == rest[i]
    ensures forall i :: 0 <= i < |[s] + rest| ==> ([s] + rest)[i] != [] && Strip(([s] + rest)[i]) == ([s] + rest)[i]
  {
    forall i | 0 <= i < |[s] + rest| ensures ([s] + rest)[i] != [] && Strip(([s] + rest)[i]) == ([s] + rest)[i] {
      if i > 0 {
        assert ([s] + rest)[i] == rest[i - 1];
      }
    }
  }

  /** One fragment contributes its stripped text exactly when that text is not empty. */
  lemma NonEmptyStrippedSingle(f: string)
    ensures NonEmptyStripped([f]) == if Strip(f) == [] then [] else [Strip(f)]
  {
    assert [f][1..] == [];
  }

  /** The pieces kept from two runs of fragments are those kept from each, in
      order: with `NonEmptyStrippedSingle`, every fragment with visible text
      contributes its stripped text at its own place. */
  lemma {:induction false} NonEmptyStrippedAppend(a: seq<string>, b: seq<string>)
    ensures NonEmptyStripped(a + b) == NonEmptyStripped(a) + NonEmptyStripped(b)
  {
    if a == [] {
      assert a + b == b;
    } else {
      assert (a + b)[0] == a[0];
      assert (a + b)[1..] == a[1..] + b;
      NonEmptyStrippedAppend(a[1..], b);
    }
  }

  /** A character absent from every fragment is absent from every kept piece. */
  lemma {:induction false} NonEmptyStrippedAvoids(fragments: seq<string>, c: char)
    requires forall j :: 0 <= j < |fragments| ==> c !in fragments[j]
    ensures forall i :: 0 <= i < |NonEmptyStripped(fragments)| ==> c !in NonEmptyStripped(fragments)[i]
  {
    if fragments != [] {
      var rest := NonEmptyStripped(fragments[1..]);
      var s := Strip(fragments[0]);
      assert NonEmptyStripped(fragments) == if s == [] then rest else [s] + rest;
      NonEmptyStrippedAvoids(fragments[1..], c);
      StripAvoids(fragments[0], c);
      forall i | 0 <= i < |NonEmptyStripped(fragments)| ensures c !in NonEmptyStripped(fragments)[i] {
        if s != [] && i > 0 {
          assert NonEmptyStripped(fragments)[i] == rest[i - 1];
        }
      }
    }
  }

  /** `[s.strip() for s in text.split('.') if s.strip()]` */
  function Sentences(text: string): seq<string> {
    NonEmptyStripped(Split(text, '.'))
  }

  /** `f'• {s}.'` */
  function Bullet(s: string): string {
    [BulletMark, ' '] + s + "."
  }

  function BulletLines(ss: seq<string>): (lines: seq<string>)
    ensures |lines| == |ss|
    ensures forall i :: 0 <= i < |ss| ==> lines[i] == Bullet(ss[i])
  {
    seq(|ss|, i requires 0 <= i < |ss| => Bullet(ss[i]))
  }

  /** `format_response_with_bullets`: text with a bullet line comes back as it
      is; any other text becomes one bullet line per sentence. */
  function FormatResponseWithBullets(text: string): (r: string)
    ensures HasBulletLine(text) ==> r == text
  {
    if HasBulletLine(text) then text
    else Join("\n", BulletLines(Sentences(text)))
  }

  /** The sentences are the stripped, non-empty pieces between periods: each
      is non-empty, free of surrounding whitespace and free of periods. */
  lemma SentencesClean(text: string)
    ensures forall i :: 0 <= i < |Sentences(text)| ==>
              var s := Sentences(text)[i]; s != [] && Strip(s) == s && '.' !in s
  {
    SplitAvoidsSep(text, '.');
    NonEmptyStrippedAvoids(Split(text, '.'), '.');
  }

  /** Text without a bullet line is rewritten into bullets: when no sentence
      itself holds a line break there is exactly one line per sentence, each
      line being "• ", the sentence, and "."; no sentences give "", one empty line. */
  lemma FormatBulletsSentences(text: string)
    ensures !HasBulletLine(text) && (forall i :: 0 <= i < |Sentences(text)| ==> '\n' !in Sentences(text)[i]) ==>
      var lines := Split(FormatResponseWithBullets(text), '\n');
      && (Sentences(text) == [] ==> FormatResponseWithBullets(text) == "")
      && |lines| == (if Sentences(text) == [] then 1 else |Sentences(text)|)
      && (Sentences(text) != [] ==> forall i :: 0 <= i < |lines| ==>
            StartsWith(lines[i], [BulletMark, ' ']) && EndsWith(lines[i], ".")
            && lines[i] == Bullet(Sentences(text)[i]))
  {
    var ss := Sentences(text);
    if !HasBulletLine(text) && forall i :: 0 <= i < |ss| ==> '\n' !in ss[i] {
      assert FormatResponseWithBullets(text) == Join("\n", BulletLines(ss));
      SplitBulletLines(ss);
    }
  }

  /** The lines of joined bullets are the bullets, each opening with "• " and
      closing with ".", as long as no sentence holds a line break. */
  lemma SplitBulletLines(ss: seq<string>)
    requires forall i :: 0 <= i < |ss| ==> '\n' !in ss[i]
    ensures var lines := Split(Join("\n", BulletLines(ss)), '\n');
      && |lines| == (if ss == [] then 1 else |ss|)
      && (ss != [] ==> forall i :: 0 <= i < |lines| ==>
            StartsWith(lines[i], [BulletMark, ' ']) && EndsWith(lines[i], ".") && lines[i] == Bullet(ss[i]))
  {
    var bs := BulletLines(ss);
    if ss == [] {
      assert Join("\n", bs) == "";
    } else {
      BulletLinesAvoid(ss);
      SplitJoin(bs, '\n');
      forall i | 0 <= i < |bs| ensures StartsWith(bs[i], [BulletMark, ' ']) && EndsWith(bs[i], ".") {
        assert bs[i] == [BulletMark, ' '] + ss[i] + ".";
      }
    }
  }

  /** A bullet line holds a line break only where its sentence does. */
  lemma BulletLinesAvoid(ss: seq<string>)
    requires forall i :: 0 <= i < |ss| ==> '\n' !in ss[i]
    ensures forall i :: 0 <= i < |ss| ==> '\n' !in BulletLines(ss)[i]
  {
    forall i | 0 <= i < |ss| ensures '\n' !in BulletLines(ss)[i] {
      assert BulletLines(ss)[i] == [BulletMark, ' '] + ss[i] + ".";
    }
  }

  /** Text whose first character is the bullet mark has a bullet line. */
  lemma BulletFirstHasBulletLine(r: string)
    requires r != [] && r[0] == BulletMark
    ensures HasBulletLine(r)
  {
    var t := Strip(r);
    assert t != [] && t[0] == BulletMark;
    SplitFirst(t, '\n');
    var first := Split(t, '\n')[0];
    assert first[0] == BulletMark;
    assert IsBulletLine(first);
  }

  /** The empty text has neither a bullet line nor a sentence. */
  lemma EmptyText()
    ensures !HasBulletLine("") && Sentences("") == []
  {
    assert Split("", '\n') == [""];
    assert !IsBulletLine("");
    assert Split("", '.') == [""];
  }

  /** `a`, a line break and `b`, where `a` and `b` are visible characters: a
      text of two lines with no period and no bullet mark. */
  predicate PlainChar(c: char) {
    !IsSpace(c) && c != '.' && c != '\n' && c != BulletMark
  }

  /** Stripping keeps a two-line text with visible ends. */
  lemma StripTwoLine(a: char, b: char)
    requires PlainChar(a) && PlainChar(b)
    ensures Strip([a, '\n', b]) == [a, '\n', b]
  {
    var t := [a, '\n', b];
    assert t[0] == a && t[|t| - 1] == b;
  }

  /** A two-line text without periods is a single sentence. */
  lemma TwoLineSentence(a: char, b: char)
    requires PlainChar(a) && PlainChar(b)
    ensures Sentences([a, '\n', b]) == [[a, '\n', b]]
  {
    var t := [a, '\n', b];
    assert Split(t, '.') == [t] by { SplitWithoutSep(t, '.'); }
    StripTwoLine(a, b);
  }

  /** A two-line text splits into its two lines. */
  lemma TwoLineSplit(a: char, b: char)
    requires PlainChar(a) && PlainChar(b)
    ensures Split([a, '\n', b], '\n') == [[a], [b]]
  {
    assert [a, '\n', b] == [a] + ['\n'] + [b];
    SplitAtSep([a], '\n', [b]);
    SplitWithoutSep([b], '\n');
  }

  /** Neither line of a two-line text of plain characters is a bullet. */
  lemma TwoLineNoBullet(a: char, b: char)
    requires PlainChar(a) && PlainChar(b)
    ensures !HasBulletLine([a, '\n', b])
  {
    StripTwoLine(a, b);
    TwoLineSplit(a, b);
    PlainStartNotBullet([a]);
    PlainStartNotBullet([b]);
  }

  /** A line opening with a visible character other than the bullet mark is not a bullet line. */
  lemma PlainStartNotBullet(line: string)
    requires line != [] && !IsSpace(line[0]) && line[0] != BulletMark
    ensures !IsBulletLine(line)
  {
  }

  /** A two-line text without periods is formatted into the single bullet of its single sentence. */
  lemma FormatTwoLine(a: char, b: char)
    requires PlainChar(a) && PlainChar(b)
    ensures FormatResponseWithBullets([a, '\n', b]) == Bullet([a, '\n', b])
  {
    var t := [a, '\n', b];
    TwoLineSentence(a, b);
    TwoLineNoBullet(a, b);
    var bs := BulletLines(Sentences(t));
    assert FormatResponseWithBullets(t) == Join("\n", bs);
    assert bs == [Bullet(t)];
  }

  /** That bullet spans two lines. */
  lemma TwoLineBulletSplits(a: char, b: char)
    requires PlainChar(a) && PlainChar(b)
    ensures |Split(Bullet([a, '\n', b]), '\n')| == 2
  {
    assert Bullet([a, '\n', b]) == [BulletMark, ' ', a] + ['\n'] + [b, '.'];
    SplitAtSep([BulletMark, ' ', a], '\n', [b, '.']);
    SplitWithoutSep([b, '.'], '\n');
  }

  /** The formatter's line count follows its sentence count only when no
      sentence holds a line break: "a\nb" is one sentence, rendered on two lines. */
  lemma FormatSplitsAcrossLines()
    ensures Sentences("a\nb") == ["a\nb"]
    ensures FormatResponseWithBullets("a\nb") == Bullet("a\nb")
    ensures |Split(FormatResponseWithBullets("a\nb"), '\n')| == 2
  {
    assert "a\nb" == ['a', '\n', 'b'];
    TwoLineSentence('a', 'b');
    FormatTwoLine('a', 'b');
    TwoLineBulletSplits('a', 'b');
  }

  /** Formatting twice changes nothing more than formatting once: the output
      either already holds a bullet line or is empty, and both come back as they are. */
  lemma FormatIdempotent(text: string)
    ensures FormatResponseWithBullets(FormatResponseWithBullets(text)) == FormatResponseWithBullets(text)
  {
    if !HasBulletLine(text) {
      var ss := Sentences(text);
      var bs := BulletLines(ss);
      var r := FormatResponseWithBullets(text);
      assert r == Join("\n", bs);
      if ss == [] {
        assert r == "";
        EmptyText();
      } else {
        JoinEnds("\n", bs);
        assert bs[0] == [BulletMark, ' '] + ss[0] + ".";
        assert r[0] == BulletMark;
        BulletFirstHasBulletLine(r);
      }
    }
  }

  // ---------------------------------------------------------------------------
  // File extraction
  // ---------------------------------------------------------------------------

  /** An uploaded document, described by what each reader yields for its bytes:
      the PDF reader (raising when the bytes are not a PDF, and each page's text
      extraction possibly raising), the word-processor reader's paragraph texts,
      and the UTF-8 decoding of the bytes. Only the reader the file's extension
      selects is consulted. */
  datatype UploadedFile = UploadedFile(
    name: string,
    pdfPages: Result<seq<Result<string>>>,
    paragraphs: Result<seq<string>>,
    utf8Text: Result<string>)

  const FileErrorPrefix := "Error processing file: "

  /** The text of the PDF pages, each followed by "\n", in page order; the first
      page whose extraction raises makes the whole extraction raise. */
  function PdfText(pages: seq<Result<string>>): Result<string> {
    if pages == [] then Ok("")
    else
      var last := pages[|pages| - 1];
      match PdfText(pages[..|pages| - 1])
      case Raised(m) => Raised(m)
      case Ok(t) => if last.Raised? then Raised(last.message) else Ok(t + last.value + "\n")
  }

  /** The value `_process_file` returns, chosen by the file name's extension. */
  function FileText(file: UploadedFile): string {
    if EndsWith(file.name, ".pdf") then
      match file.pdfPages
      case Raised(m) => FileErrorPrefix + m
      case Ok(pages) => match PdfText(pages) case Ok(t) => t case Raised(m) => FileErrorPrefix + m
    else if EndsWith(file.name, ".txt") then
      match file.utf8Text case Ok(t) => t case Raised(m) => FileErrorPrefix + m
    else if EndsWith(file.name, ".doc") || EndsWith(file.name, ".docx") then
      match file.paragraphs case Ok(ps) => Join("\n", ps) case Raised(m) => FileErrorPrefix + m
    else ""
  }

  /** The page texts of pages that were all extracted. */
  function PageTexts(pages: seq<Result<string>>): (ts: seq<string>)
    requires forall i :: 0 <= i < |pages| ==> pages[i].Ok?
    ensures |ts| == |pages| && forall i :: 0 <= i < |pages| ==> ts[i] == pages[i].value
  {
    seq(|pages|, i requires 0 <= i < |pages| => pages[i].value)
  }

  /** When every page is extracted, the PDF text is the page texts joined by
      "\n" with one more "\n" at the end (nothing at all for no pages); the same
      joining the word-processor path uses, plus the closing line break. */
  lemma {:induction false} PdfTextJoinsPages(pages: seq<Result<string>>)
    requires forall i :: 0 <= i < |pages| ==> pages[i].Ok?
    ensures PdfText(pages) == Ok(if pages == [] then "" else Join("\n", PageTexts(pages)) + "\n")
  {
    if |pages| > 1 {
      var init := pages[..|pages| - 1];
      PdfTextJoinsPages(init);
      JoinSnoc(PageTexts(init), pages[|pages| - 1].value);
      assert PageTexts(init) + [pages[|pages| - 1].value] == PageTexts(pages);
    } else if |pages| == 1 {
      assert pages[..0] == [];
      assert PdfText(pages[..0]) == Ok("");
      assert PageTexts(pages) == [pages[0].value];
      assert Join("\n", [pages[0].value]) == pages[0].value;
      assert "" + pages[0].value + "\n" == pages[0].value + "\n";
    }
  }

  /** Joining after appending one more part adds the separator and that part. */
  lemma {:induction false} JoinSnoc(parts: seq<string>, p: string)
    requires parts != []
    ensures Join("\n", parts + [p]) == Join("\n", parts) + "\n" + p
  {
    if |parts| > 1 {
      assert (parts + [p])[1..] == parts[1..] + [p];
      JoinSnoc(parts[1..], p);
    }
  }

  /** The PDF extraction raises exactly when some page raises, and then with the
      message of the first page that does. */
  lemma {:induction false} PdfTextRaisesAtFirstFailure(pages: seq<Result<string>>)
    ensures PdfText(pages).Raised? <==> exists i :: 0 <= i < |pages| && pages[i].Raised?
    ensures PdfText(pages).Raised? ==>
              exists i :: 0 <= i < |pages| && pages[i].Raised? && PdfText(pages).message == pages[i].message
                          && forall j :: 0 <= j < i ==> pages[j].Ok?
  {
    if pages != [] {
      var init := pages[..|pages| - 1];
      PdfTextRaisesAtFirstFailure(init);
      assert forall i :: 0 <= i < |init| ==> init[i] == pages[i];
    }
  }

  /** Once a prefix of the pages raises, extracting all of them raises the same. */
  lemma {:induction false} PdfTextKeepsRaised(pages: seq<Result<string>>, n: nat)
    requires n <= |pages| && PdfText(pages[..n]).Raised?
    ensures PdfText(pages) == PdfText(pages[..n])
  {
    if n < |pages| {
      assert pages[..|pages| - 1][..n] == pages[..n];
      PdfTextKeepsRaised(pages[..|pages| - 1], n);
    } else {
      assert pages[..n] == pages;
    }
  }

  /** The loop over the PDF pages in `_process_file`: each page's text and a
      line break are appended in page order, and the first page whose
      extraction raises ends the loop with its exception. */
  method ReadPdfPages(pages: seq<Result<string>>) returns (r: Result<string>)
    ensures r == PdfText(pages)
  {
    var content := "";
    for i := 0 to |pages|
      invariant PdfText(pages[..i]) == Ok(content)
    {
      assert pages[..i + 1][..i] == pages[..i];
      if pages[i].Raised? {
        PdfTextKeepsRaised(pages, i + 1);
        return Raised(pages[i].message);
      }
      content := content + pages[i].value + "\n";
    }
    assert pages[..|pages|] == pages;
    r := Ok(content);
  }

  /** `_process_file`: dispatches on the file name's extension; PDF pages are
      accumulated in order, each followed by "\n"; an unrecognised extension
      gives ""; an exception from a reader becomes "Error processing file: ...". */
  method ProcessFile(file: UploadedFile) returns (content: string)
    ensures content == FileText(file)
  {
    content := "";
    if EndsWith(file.name, ".pdf") {
      if file.pdfPages.Raised? {
        return FileErrorPrefix + file.pdfPages.message;
      }
      var text := ReadPdfPages(file.pdfPages.value);
      content := match text case Ok(t) => t case Raised(m) => FileErrorPrefix + m;
    } else if EndsWith(file.name, ".txt") {
      content := match file.utf8Text case Ok(t) => t case Raised(m) => FileErrorPrefix + m;
    } else if EndsWith(file.name, ".doc") || EndsWith(file.name, ".docx") {
      content := match file.paragraphs case Ok(ps) => Join("\n", ps) case Raised(m) => FileErrorPrefix + m;
    }
  }

  /** An unrecognised extension yields the empty string, not an error text. */
  lemma UnsupportedFileIsEmpty(file: UploadedFile)
    requires !EndsWith(file.name, ".pdf") && !EndsWith(file.name, ".txt")
    requires !EndsWith(file.name, ".doc") && !EndsWith(file.name, ".docx")
    ensures FileText(file) == ""
  {
  }

  // ---------------------------------------------------------------------------
  // Generating a response
  // ---------------------------------------------------------------------------

  /** What is handed to the provider's SDK: the list of message contents for
      the generative model, or a chat-completion call with its parameters. */
  datatype BackendRequest =
    | GenerateContent(contents: seq<string>)
    | ChatCompletion(model: string, messages: seq<Message>, temperature: real, maxTokens: Option<nat>)

  /** What the SDK call yields: a reply whose text may be absent (a chat
      completion's `content` can be `None`), or an exception with its message. */
  datatype BackendOutcome = Completion(text: Option<string>) | Failed(reason: string)

  /** The hosted model service, seen as a function of the client and the request. */
  type Backend = (ClientSetup, BackendRequest) -> BackendOutcome

  const PromptSuffix := "\nPlease provide a brief response in bullet points with the most relevant information."
  const ResponseErrorPrefix := "Error generating response: "
  /** The message of the `IndexError` raised by `messages[-1]` on an empty list. */
  const EmptyListError := "list index out of range"
  const DefaultChatModel := "gpt-3.5-turbo"
  const GrokModel := "grok-beta"
  const GrokMaxTokens := 5000
  const Temperature := 0.7

  /** `[msg["content"] for msg in messages]` */
  function Contents(msgs: seq<Message>): (cs: seq<string>)
    ensures |cs| == |msgs| && forall i :: 0 <= i < |msgs| ==> cs[i] == msgs[i].content
  {
    seq(|msgs|, i requires 0 <= i < |msgs| => msgs[i].content)
  }

  /** The message contents a request carries, whichever provider it is for. */
  function RequestContents(req: BackendRequest): seq<string> {
    match req
    case GenerateContent(cs) => cs
    case ChatCompletion(_, ms, _, _) => Contents(ms)
  }

  /** The provider branch of `generate_response`: every provider is shown every
      message's content in order; the chat providers get the whole messages at
      temperature 0.7, OpenAI under the configured model or "gpt-3.5-turbo" and
      without a token cap, Grok under "grok-beta" capped at 5000 tokens. An
      unknown provider raises `ValueError`. */
  function BuildRequest(config: LlmConfig, msgs: seq<Message>): (r: Result<BackendRequest>)
    ensures r.Ok? <==> ParseProvider(config.provider).Some?
    ensures r.Raised? ==> r.message == "Unsupported LLM provider: " + config.provider
    ensures r.Ok? ==> RequestContents(r.value) == Contents(msgs)
    ensures r.Ok? ==> (r.value.GenerateContent? <==> ParseProvider(config.provider).value == Gemini)
    ensures r.Ok? && r.value.ChatCompletion? ==> r.value.messages == msgs && r.value.temperature == Temperature
    ensures r.Ok? && ParseProvider(config.provider).value == OpenAI ==>
              r.value.maxTokens.None? && r.value.model == (if Truthy(config.model) then config.model.value else DefaultChatModel)
    ensures r.Ok? && ParseProvider(config.provider).value == Grok ==>
              r.value.maxTokens == Some(GrokMaxTokens) && r.value.model == GrokModel
  {
    match ParseProvider(config.provider)
    case Some(Gemini) => Ok(GenerateContent(Contents(msgs)))
    case Some(OpenAI) =>
      Ok(ChatCompletion(if Truthy(config.model) then config.model.value else DefaultChatModel, msgs, Temperature, None))
    case Some(Grok) => Ok(ChatCompletion(GrokModel, msgs, Temperature, Some(GrokMaxTokens)))
    case None => Raised("Unsupported LLM provider: " + config.provider)
  }

  /** The prompt that replaces the last message's content: the question with
      the bullet-point request appended, preceded, when a file is uploaded, by
      the file's name and extracted text. */
  function AugmentedPrompt(query: string, file: Option<UploadedFile>): (r: string)
    ensures EndsWith(r, query + PromptSuffix)
    ensures |r| >= |query| + |PromptSuffix|
    ensures file.Some? ==> StartsWith(r, "Context from file '" + file.value.name + "':\n" + FileText(file.value) + "\n\nQuestion: ")
    ensures file.Some? ==>
              |r| == |"Context from file '" + file.value.name + "':\n" + FileText(file.value) + "\n\nQuestion: "|
                     + |query| + |PromptSuffix|
    ensures file.None? ==> |r| == |query| + |PromptSuffix|
  {
    var tail := query + PromptSuffix;
    if file.Some? then
      var preamble := "Context from file '" + file.value.name + "':\n" + FileText(file.value) + "\n\nQuestion: ";
      ConcatEnds(preamble, tail);
      preamble + tail
    else
      ConcatEnds("", tail);
      tail
  }

  /** Cutting the bullet-point request off the prompt's end gives back a text
      that ends with the question, and is the question itself without a file. */
  lemma PromptRecoversQuery(query: string, file: Option<UploadedFile>)
    ensures var r := AugmentedPrompt(query, file);
      EndsWith(r[..|r| - |PromptSuffix|], query)
      && (file.None? ==> r[..|r| - |PromptSuffix|] == query)
  {
    var r := AugmentedPrompt(query, file);
    var cut := r[..|r| - |PromptSuffix|];
    assert r[|r| - |query| - |PromptSuffix|..] == query + PromptSuffix;
    assert cut[|cut| - |query|..] == r[|r| - |query| - |PromptSuffix|..][..|query|];
  }

  /** The message list after `generate_response` rewrote it: only the last
      message's content changes, into the augmented prompt. */
  function Augment(msgs: seq<Message>, file: Option<UploadedFile>): (r: seq<Message>)
    requires msgs != []
    ensures |r| == |msgs|
    ensures forall i :: 0 <= i < |msgs| - 1 ==> r[i] == msgs[i]
    ensures r[|r| - 1].role == msgs[|msgs| - 1].role
    ensures r[|r| - 1].content == AugmentedPrompt(msgs[|msgs| - 1].content, file)
  {
    msgs[..|msgs| - 1] + [Message(msgs[|msgs| - 1].role, AugmentedPrompt(msgs[|msgs| - 1].content, file))]
  }

  /** The request `generate_response` sends for the message list, or the
      message of the exception raised before anything is sent. */
  function SentRequest(config: LlmConfig, msgs: seq<Message>, file: Option<UploadedFile>): (r: Result<BackendRequest>)
    ensures msgs == [] ==> r == Raised(EmptyListError)
    ensures msgs != [] ==> (r.Ok? <==> ParseProvider(config.provider).Some?)
    ensures msgs != [] && r.Ok? ==>
              RequestContents(r.value) == Contents(msgs)[..|msgs| - 1] + [AugmentedPrompt(msgs[|msgs| - 1].content, file)]
  {
    if msgs == [] then Raised(EmptyListError)
    else
      AugmentContents(msgs, file);
      BuildRequest(config, Augment(msgs, file))
  }

  /** The contents of the rewritten list: the earlier ones, then the prompt. */
  lemma AugmentContents(msgs: seq<Message>, file: Option<UploadedFile>)
    requires msgs != []
    ensures Contents(Augment(msgs, file)) == Contents(msgs)[..|msgs| - 1] + [AugmentedPrompt(msgs[|msgs| - 1].content, file)]
  {
  }

  /** The value `generate_response` returns: the reply text as the back end
      gave it, not passed through the bullet formatter, or the exception's
      message behind "Error generating response: ". */
  function Reply(config: LlmConfig, client: ClientSetup, msgs: seq<Message>, file: Option<UploadedFile>,
                 backend: Backend): (r: Option<string>)
    ensures r.None? ==> Answered(config, client, msgs, file, backend)
    ensures Answered(config, client, msgs, file, backend) ==>
              r == backend(client, SentRequest(config, msgs, file).value).text
    ensures !Answered(config, client, msgs, file, backend) ==>
              r.Some? && StartsWith(r.value, ResponseErrorPrefix)
              && r.value[|ResponseErrorPrefix|..] == FailureMessage(config, client, msgs, file, backend)
  {
    match SentRequest(config, msgs, file)
    case Raised(m) => Some(ResponseErrorPrefix + m)
    case Ok(req) =>
      match backend(client, req)
      case Completion(t) => t
      case Failed(m) => Some(ResponseErrorPrefix + m)
  }

  /** The message of the exception an exchange raised: the one raised before
      sending, or else the back end's. */
  function FailureMessage(config: LlmConfig, client: ClientSetup, msgs: seq<Message>, file: Option<UploadedFile>,
                          backend: Backend): string
  {
    var req := SentRequest(config, msgs, file);
    if req.Raised? then req.message
    else
      var outcome := backend(client, req.value);
      if outcome.Failed? then outcome.reason else ""
  }

  /** Whether the exchange reached the back end and came back without raising. */
  predicate Answered(config: LlmConfig, client: ClientSetup, msgs: seq<Message>, file: Option<UploadedFile>,
                     backend: Backend)
  {
    SentRequest(config, msgs, file).Ok? && backend(client, SentRequest(config, msgs, file).value).Completion?
  }

  /** `uploaded_file.name if uploaded_file else None` */
  function FileName(file: Option<UploadedFile>): Option<string> {
    if file.Some? then Some(file.value.name) else None
  }

  /** The rows `generate_response` adds to the chat table: one, holding the
      question as the user typed it (not the prompt sent), exactly when the
      back end answered, an e-mail is given, the store is connected and the
      insert goes through. */
  function SavedRows(config: LlmConfig, client: ClientSetup, msgs: seq<Message>, file: Option<UploadedFile>,
                     backend: Backend, userEmail: Option<string>, connected: bool,
                     now: string, insert: InsertOutcome): (rows: seq<ChatRecord>)
    ensures |rows| <= 1
    ensures rows != [] <==> Answered(config, client, msgs, file, backend) && Truthy(userEmail) && connected && insert.Inserted?
    ensures rows != [] ==>
              msgs != [] && rows[0].userEmail == userEmail.value && rows[0].query == msgs[|msgs| - 1].content
              && rows[0].response == Reply(config, client, msgs, file, backend)
              && rows[0].fileName == FileName(file) && rows[0].createdAt == now
  {
    if Answered(config, client, msgs, file, backend) && Truthy(userEmail) && connected && insert.Inserted? then
      [ChatRecord(userEmail.value, msgs[|msgs| - 1].content, Reply(config, client, msgs, file, backend), FileName(file), now)]
    else []
  }

  /** The saved question is never the prompt that was sent: the prompt is the
      question followed by the bullet-point request. */
  lemma SavedQueryIsNotPrompt(config: LlmConfig, client: ClientSetup, msgs: seq<Message>, file: Option<UploadedFile>,
                              backend: Backend, userEmail: Option<string>, connected: bool,
                              now: string, insert: InsertOutcome)
    requires SavedRows(config, client, msgs, file, backend, userEmail, connected, now, insert) != []
    ensures var row := SavedRows(config, client, msgs, file, backend, userEmail, connected, now, insert)[0];
            var sent := Augment(msgs, file)[|msgs| - 1].content;
            row.query != sent && EndsWith(sent, row.query + PromptSuffix)
  {
  }

  /** Every failure comes back as a reply opening with "Error generating
      response: ", so a caller sees a string and never an exception. */
  lemma FailureIsPrefixed(config: LlmConfig, client: ClientSetup, msgs: seq<Message>, file: Option<UploadedFile>,
                          backend: Backend)
    requires !Answered(config, client, msgs, file, backend)
    ensures var r := Reply(config, client, msgs, file, backend);
            r.Some? && StartsWith(r.value, ResponseErrorPrefix)
  {
  }

  /** An answered request is returned word for word. */
  lemma AnswerIsUnformatted(config: LlmConfig, client: ClientSetup, msgs: seq<Message>, file: Option<UploadedFile>,
                            backend: Backend, text: string)
    requires SentRequest(config, msgs, file).Ok?
    requires backend(client, SentRequest(config, msgs, file).value) == Completion(Some(text))
    ensures Reply(config, client, msgs, file, backend) == Some(text)
  {
  }

  /** The step of `generate_response` that builds the prompt replacing the
      last message, reading the uploaded file when there is one. */
  method BuildPrompt(originalQuery: string, uploadedFile: Option<UploadedFile>) returns (prompt: string)
    ensures prompt == AugmentedPrompt(originalQuery, uploadedFile)
  {
    if uploadedFile.Some? {
      var fileContent := ProcessFile(uploadedFile.value);
      prompt := "Context from file '" + uploadedFile.value.name + "':\n" + fileContent
                + "\n\nQuestion: " + originalQuery + PromptSuffix;
    } else {
      prompt := originalQuery + PromptSuffix;
    }
  }

  /** `LLMConnect`: a provider configuration, the SDK client built from it, and
      the chat-history store it opened. */
  class LlmConnect {
    const config: LlmConfig
    const client: ClientSetup
    const db: DatabaseConnect

    ghost predicate Valid()
      reads this, db
    {
      ParseProvider(config.provider).Some? && db.Valid()
    }

    /** `LLMConnect(config)` for a provider the constructor accepts: builds the
        client, then opens the store. */
    constructor (config: LlmConfig, env: map<string, string>, probe: Probe, existing: seq<ChatRecord>)
      requires ParseProvider(config.provider).Some?
      ensures Valid() && fresh(db)
      ensures this.config == config && client == InitializeClient(config, env).value
      ensures db.supabaseUrl == GetEnv(env, UrlEnv) && db.supabaseKey == GetEnv(env, KeyEnv)
      ensures db.table == existing
      ensures db.isConnected <==> HasCredentials(db.supabaseUrl, db.supabaseKey) && probe.Reachable?
    {
      this.config := config;
      client := InitializeClient(config, env).value;
      db := new DatabaseConnect(env, probe, existing);
    }

    /** `generate_response`: rewrites the last message into the prompt, sends
        the request, saves the exchange when an e-mail is given and the store is
        connected, and returns the reply or the error text. */
    method GenerateResponse(messages: array<Message>, uploadedFile: Option<UploadedFile>, userEmail: Option<string>,
                            backend: Backend, now: string, insert: InsertOutcome)
      returns (r: Option<string>)
      requires Valid()
      modifies messages, db`table
      ensures r == Reply(config, client, old(messages[..]), uploadedFile, backend)
      ensures messages.Length == 0 ==> messages[..] == old(messages[..])
      ensures messages.Length > 0 ==> messages[..] == Augment(old(messages[..]), uploadedFile)
      ensures db.table == old(db.table) + SavedRows(config, client, old(messages[..]), uploadedFile, backend,
                                                    userEmail, db.isConnected, now, insert)
    {
      ghost var msgs := messages[..];
      if messages.Length == 0 {
        return Some(ResponseErrorPrefix + EmptyListError);
      }
      var last := messages.Length - 1;
      var originalQuery := messages[last].content;
      var prompt := BuildPrompt(originalQuery, uploadedFile);
      messages[last] := Message(messages[last].role, prompt);
      assert messages[..] == Augment(msgs, uploadedFile);
      // The constructor accepted the provider, so the branch that raises for
      // an unknown one is never taken here.
      var request := BuildRequest(config, messages[..]).value;
      assert SentRequest(config, msgs, uploadedFile) == Ok(request);
      var outcome := backend(client, request);
      if outcome.Failed? {
        return Some(ResponseErrorPrefix + outcome.reason);
      }
      if Truthy(userEmail) && db.isConnected {
        var _ := db.SaveChat(userEmail.value, originalQuery, outcome.text, FileName(uploadedFile), now, insert);
      }
      r := outcome.text;
    }
  }

  /** `LLMConnect(config)`: raises `ValueError` for a provider it does not know,
      before any store is opened. */
  method Connect(config: LlmConfig, env: map<string, string>, probe: Probe, existing: seq<ChatRecord>)
    returns (r: Result<LlmConnect>)
    ensures r.Raised? <==> ParseProvider(config.provider).None?
    ensures r.Raised? ==> r.message == "Unsupported LLM provider: " + config.provider
    ensures r.Ok? ==> fresh(r.value) && fresh(r.value.db) && r.value.Valid() && r.value.config == config
                      && r.value.client == InitializeClient(config, env).value
                      && r.value.db.supabaseUrl == GetEnv(env, UrlEnv) && r.value.db.supabaseKey == GetEnv(env, KeyEnv)
                      && r.value.db.table == existing
                      && (r.value.db.isConnected <==> HasCredentials(r.value.db.supabaseUrl, r.value.db.supabaseKey) && probe.Reachable?)
  {
    if ParseProvider(config.provider).None? {
      return Raised(InitializeClient(config, env).message);
    }
    var c := new LlmConnect(config, env, probe, existing);
    r := Ok(c);
  }

  /** `get_llm_client`: builds the configuration for the named provider and
      connects with it; an unknown name raises `ValueError`. */
  method GetLlmClient(provider: string, env: map<string, string>, probe: Probe, existing: seq<ChatRecord>)
    returns (r: Result<LlmConnect>)
    ensures r.Raised? <==> ParseProvider(provider).None?
    ensures r.Raised? ==> r.message == "Unsupported provider: " + provider
    ensures r.Ok? ==> fresh(r.value) && fresh(r.value.db) && r.value.Valid()
                      && r.value.config == GetLlmConfig(provider, env).value
                      && r.value.client == InitializeClient(r.value.config, env).value
                      && r.value.db.supabaseUrl == GetEnv(env, UrlEnv) && r.value.db.supabaseKey == GetEnv(env, KeyEnv)
                      && r.value.db.table == existing
                      && (r.value.db.isConnected <==> HasCredentials(r.value.db.supabaseUrl, r.value.db.supabaseKey) && probe.Reachable?)
  {
    var config := GetLlmConfig(provider, env);
    if config.Raised? {
      return Raised(config.message);
    }
    FactoryAgreesWithConstructor(provider, env, config.value.apiKey, config.value.model);
    r := Connect(config.value, env, probe, existing);
  }
}
