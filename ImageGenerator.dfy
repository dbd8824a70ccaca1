/** lib/imageGenerator.ts: validation of the image service's response, the download of the
    image, and the rewrapping of every failure under one message prefix. */
module ImageGenerator {
  import opened Common

  /** One element of `response.data`; its `url` may be absent. */
  datatype ImageDatum = ImageDatum(url: Option<string>)

  /** The image service's response; `data` may be absent. */
  datatype ImageResponse = ImageResponse(data: Option<seq<ImageDatum>>)

  datatype GeneratedImage = GeneratedImage(imageUrl: string, imageBuffer: seq<bv8>)

  const FailurePrefix := "Failed to generate image: "
  const NoDataMessage := "No image data returned from DALL-E"
  const NoUrlMessage := "No image URL returned from DALL-E"
  const DownloadFailedMessage := "Failed to download image"

  /** The catch block of `generateImage`: a new Error whose message carries the prefix. */
  function Rewrap(t: Thrown): (e: Thrown)
    ensures e.ErrorObject? && FailurePrefix <= e.message
    ensures e.message[|FailurePrefix|..] == MessageOr(t, "Unknown error")
  {
    ErrorObject(FailurePrefix + MessageOr(t, "Unknown error"))
  }

  /** `response.data` is present and has at least one element. */
  predicate HasData(response: ImageResponse) {
    response.data.Some? && |response.data.value| > 0
  }

  /** `response.data[0]?.url`. */
  function FirstUrl(response: ImageResponse): Option<string>
    requires HasData(response)
  {
    response.data.value[0].url
  }

  /** `generateImage`: `generation` is the outcome of the image call, `download` the outcome of
      fetching a given URL. */
  function GenerateImage(generation: Step<ImageResponse>, download: string -> Step<seq<bv8>>): (r: Step<GeneratedImage>)
    ensures r.Threw? ==> r.thrown.ErrorObject? && FailurePrefix <= r.thrown.message
    ensures generation.Threw? ==> r == Threw(Rewrap(generation.thrown))
    ensures generation.Done? && !HasData(generation.value) ==>
      r == Threw(ErrorObject(FailurePrefix + NoDataMessage))
    ensures (generation.Done? && HasData(generation.value) && !Truthy(FirstUrl(generation.value))) ==>
      r == Threw(ErrorObject(FailurePrefix + NoUrlMessage))
    ensures r.Done? ==>
      && generation.Done?
      && HasData(generation.value)
      && FirstUrl(generation.value) == Some(r.value.imageUrl)
      && r.value.imageUrl != ""
      && download(r.value.imageUrl) == Done(r.value.imageBuffer)
    ensures (generation.Done? && HasData(generation.value) && Truthy(FirstUrl(generation.value))) ==>
      (r.Done? <==> download(FirstUrl(generation.value).value).Done?)
    ensures (generation.Done? && HasData(generation.value) && Truthy(FirstUrl(generation.value))
             && download(FirstUrl(generation.value).value).Threw?) ==>
      r == Threw(Rewrap(download(FirstUrl(generation.value).value).thrown))
  {
    match generation
    case Threw(e) => Threw(Rewrap(e))
    case Done(response) =>
      if response.data.None? || |response.data.value| == 0 then
        Threw(Rewrap(ErrorObject(NoDataMessage)))
      else
        var imageUrl := response.data.value[0].url;
        if !Truthy(imageUrl) then
          Threw(Rewrap(ErrorObject(NoUrlMessage)))
        else
          match download(imageUrl.value)
          case Threw(e) => Threw(Rewrap(e))
          case Done(bytes) => Done(GeneratedImage(imageUrl.value, bytes))
  }

  /** `downloadImage`: `fetched` is the outcome of the HTTP request. */
  function DownloadImage(fetched: Step<seq<bv8>>): (r: Step<seq<bv8>>)
    ensures r.Threw? ==> r.thrown == ErrorObject(DownloadFailedMessage)
    ensures r.Done? <==> fetched.Done?
    ensures r.Done? ==> r.value == fetched.value
  {
    match fetched
    case Done(bytes) => Done(bytes)
    case Threw(_) => Threw(ErrorObject(DownloadFailedMessage))
  }
}
