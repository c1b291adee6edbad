/**
 * The illustration endpoint (`POST /api/image`): validates the description,
 * builds the image prompt from it and a style, and asks the image service once.
 * Every failure after validation is answered with a placeholder picture
 * rather than an error. The service's reply and the clock are parameters.
 */
module ImageRoute {
  import opened Wrappers
  import opened JsText
  import opened Types

  /** The shortest description accepted, after trimming. */
  const MinPromptLength: nat := 5

  const InvalidPrompt := "请提供有效的描述"

  /** What follows the style description in every prompt. */
  const PromptTail := ", high quality, product concept illustration"

  /** The request body; `style` is `None` when absent. */
  datatype ImageRequest = ImageRequest(prompt: Option<string>, style: Option<string>)

  /** The image service's answer: a thrown error, or an HTTP reply whose body may lack the first image's URL. */
  datatype ImageReply =
    | ImageThrown
    | ImageReplied(status: int, url: Option<string>)

  datatype ImageResponse =
    | Rejected(status: nat, error: string)
    | Drawn(imageUrl: string, duration: int, fallback: bool)

  /** The response and the prompts sent to the image service. */
  datatype ImageRun = ImageRun(response: ImageResponse, prompts: seq<string>)

  /** The description is usable: present, non-empty, and at least five characters once trimmed. */
  predicate ValidPrompt(prompt: Option<string>) {
    Truthy(prompt) && |Trim(prompt.value)| >= MinPromptLength
  }

  /** The English style description for each style. */
  function StyleDescription(s: ImageStyle): string {
    match s
    case Minimal => "minimalist style, clean design, simple shapes, white space"
    case Tech => "futuristic technology style, digital art, neon accents, dark background"
    case Warm => "warm and friendly style, soft colors, organic shapes, inviting atmosphere"
    case Business => "professional business style, corporate design, clean lines, blue tones"
  }

  /**
   * The style text interpolated into the prompt: the style defaults to
   * `minimal` only when absent, and a name that is not a style interpolates
   * as the text `undefined`.
   */
  function StyleText(style: Option<string>): (t: string)
    ensures style.None? ==> t == StyleDescription(Minimal)
    ensures forall s: ImageStyle :: style == Some(ImageStyleName(s)) ==> t == StyleDescription(s)
    ensures style.Some? && ParseImageStyle(style.value).None? ==> t == "undefined"
  {
    match ParseImageStyle(style.GetOr(ImageStyleName(Minimal)))
    case Some(s) => StyleDescription(s)
    case None => "undefined"
  }

  /** The prompt sent upstream: the description, the style text, then a fixed quality suffix. */
  function FullPrompt(prompt: string, style: Option<string>): (p: string)
    ensures prompt + ", " <= p
    ensures p[|prompt| + 2..] == StyleText(style) + PromptTail
  {
    var head := prompt + ", ";
    var tail := StyleText(style) + PromptTail;
    assert (head + tail)[|head|..] == tail;
    head + tail
  }

  /** The placeholder picture served on failure, seeded with the clock. */
  function FallbackUrl(now: nat): (u: string)
    ensures "https://picsum.photos/seed/" <= u
    ensures |u| >= |"https://picsum.photos/seed/"| + |"/1024/1024"|
    ensures u[|u| - |"/1024/1024"|..] == "/1024/1024"
  {
    "https://picsum.photos/seed/" + NatToString(now) + "/1024/1024"
  }

  /** The placeholder's seed reads back as the clock value, so distinct instants give distinct pictures. */
  lemma FallbackUrlSeed(now: nat)
    ensures var u := FallbackUrl(now);
      var seed := u[|"https://picsum.photos/seed/"|..|u| - |"/1024/1024"|];
      seed == NatToString(now) && ParseInt(seed) == Some(now)
  {
    var u := FallbackUrl(now);
    assert u[|"https://picsum.photos/seed/"|..|u| - |"/1024/1024"|] == NatToString(now);
    ParseIntOfNatToString(now);
  }

  /** Distinct clock values give distinct placeholder pictures. */
  lemma FallbackUrlInjective(m: nat, n: nat)
    requires FallbackUrl(m) == FallbackUrl(n)
    ensures m == n
  {
    FallbackUrlSeed(m);
    FallbackUrlSeed(n);
  }

  /** The image request succeeded: a reply with a 2xx status. */
  predicate Succeeded(reply: ImageReply) {
    reply.ImageReplied? && 200 <= reply.status < 300
  }

  /**
   * `POST /api/image`. `start` and `now` are the clock at entry and when the
   * duration is taken; the duration is their difference. On the fallback path
   * the placeholder's seed is a separate reading, `seedClock`.
   */
  function Post(req: ImageRequest, reply: ImageReply, start: nat, seedClock: nat, now: nat): (run: ImageRun)
    ensures !ValidPrompt(req.prompt) <==> run.prompts == []
    ensures !ValidPrompt(req.prompt) ==> run.response == Rejected(400, InvalidPrompt)
    ensures ValidPrompt(req.prompt) ==> run.prompts == [FullPrompt(req.prompt.value, req.style)]
    ensures ValidPrompt(req.prompt) ==> run.response.Drawn? && run.response.duration == now - start
    ensures run.response.Drawn? ==> (run.response.fallback <==> !Succeeded(reply))
    ensures run.response.Drawn? && Succeeded(reply) ==> run.response.imageUrl == Or(reply.url, "")
    ensures run.response.Drawn? && !Succeeded(reply) ==> run.response.imageUrl == FallbackUrl(seedClock)
  {
    if !ValidPrompt(req.prompt) then ImageRun(Rejected(400, InvalidPrompt), [])
    else
      var full := FullPrompt(req.prompt.value, req.style);
      var response :=
        if Succeeded(reply) then Drawn(Or(reply.url, ""), now - start, false)
        else Drawn(FallbackUrl(seedClock), now - start, true);
      ImageRun(response, [full])
  }
}
