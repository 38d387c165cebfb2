/** The CDN helpers (`config/cdn.js`): the URL of an asset under the active CDN and the
    `srcset`/`src` values of a responsive picture. The string of markup around them is not
    modelled; the attribute values are. */
module Cdn {
  import opened Wrappers
  import opened Strings

  /** The environment variables the CDN configuration reads. */
  datatype CdnEnv = CdnEnv(
    cloudflareEnabled: Option<string>, cloudfrontEnabled: Option<string>, cloudfrontBaseUrl: Option<string>)

  const CloudflareBase := "https://cdn.paitrucking.com"
  const LocalBase := "/images/optimized"

  /** `CLOUDFLARE_ENABLED === 'true'` and `CLOUDFRONT_ENABLED === 'true'`. */
  predicate CloudflareOn(env: CdnEnv) { env.cloudflareEnabled == Some("true") }
  predicate CloudfrontOn(env: CdnEnv) { env.cloudfrontEnabled == Some("true") }

  /** `getCDNUrl`: the path under Cloudflare when it is enabled, else under CloudFront when that
      is enabled (an unset `CLOUDFRONT_BASE_URL` prints as `undefined`), else under the local
      directory of optimised images. */
  function CdnUrl(env: CdnEnv, path: string): (url: string)
    ensures CloudflareOn(env) ==> url == CloudflareBase + path
    ensures !CloudflareOn(env) && CloudfrontOn(env) ==> url == Interpolated(env.cloudfrontBaseUrl) + path
    ensures !CloudflareOn(env) && !CloudfrontOn(env) ==> url == LocalBase + path
  {
    if CloudflareOn(env) then CloudflareBase + path
    else if CloudfrontOn(env) then Interpolated(env.cloudfrontBaseUrl) + path
    else LocalBase + path
  }

  /** `getCDNUrl('')` is the base every path is appended to, so prefixing a path with it gives
      the path's CDN URL. */
  lemma CdnUrlIsBasePlusPath(env: CdnEnv, path: string)
    ensures CdnUrl(env, "") + path == CdnUrl(env, path)
    ensures EndsWith(CdnUrl(env, path), path)
  {
    var base := CdnUrl(env, "");
    assert base == base + "";
    var url := base + path;
    assert url[|url| - |path|..] == path;
  }

  const DefaultSizes: seq<string> := ["small", "medium", "large"]

  /** The `sizes = [...]` default parameter. */
  function SizesOrDefault(sizes: Option<seq<string>>): (r: seq<string>)
    ensures sizes.Some? ==> r == sizes.value
    ensures sizes.None? ==> r == DefaultSizes
  {
    sizes.GetOr(DefaultSizes)
  }

  /** `sizeMap[size]` of `generateSrcSet`; an unknown size has no descriptor. */
  function WebpWidth(size: string): (w: Option<string>)
    ensures w.Some? <==> size == "small" || size == "medium" || size == "large" || size == "hero"
    ensures w.Some? ==> w.value == "300w" || w.value == "600w" || w.value == "1200w" || w.value == "1920w"
  {
    if size == "small" then Some("300w")
    else if size == "medium" then Some("600w")
    else if size == "large" then Some("1200w")
    else if size == "hero" then Some("1920w")
    else None
  }

  /** The width descriptor of the JPEG `srcset`: every size other than small and medium is
      described as 1200 pixels wide. */
  function JpegWidth(size: string): (w: string)
    ensures w == "300w" || w == "600w" || w == "1200w"
    ensures size != "small" && size != "medium" ==> w == "1200w"
  {
    if size == "small" then "300w" else if size == "medium" then "600w" else "1200w"
  }

  /** The two descriptor tables agree on the three default sizes and on nothing else: the hero
      size is 1920 pixels in the WebP list and 1200 in the JPEG one, and an unknown size is
      `undefined` in the first and 1200 in the second. */
  lemma WidthTablesAgreeOnDefaults(size: string)
    ensures size in DefaultSizes ==> WebpWidth(size) == Some(JpegWidth(size))
    ensures size !in DefaultSizes ==> WebpWidth(size) != Some(JpegWidth(size))
    ensures WebpWidth("hero") == Some("1920w") && JpegWidth("hero") == "1200w"
  {
  }

  /** `/${size}/${imageName}-${size}.${ext}`. */
  function ImagePath(size: string, name: string, ext: string): string {
    "/" + size + "/" + name + "-" + size + "." + ext
  }

  /** One entry of the WebP `srcset`. */
  function WebpEntry(env: CdnEnv, name: string, size: string): string {
    CdnUrl(env, ImagePath(size, name, "webp")) + " " + Interpolated(WebpWidth(size))
  }

  /** The entries `generateSrcSet` pushes, one per size, in order. */
  function WebpEntries(env: CdnEnv, name: string, sizes: seq<string>): (r: seq<string>)
    ensures |r| == |sizes|
  {
    seq(|sizes|, i requires 0 <= i < |sizes| => WebpEntry(env, name, sizes[i]))
  }

  /** The WebP `srcset` of the given sizes. */
  function SrcSet(env: CdnEnv, name: string, sizes: seq<string>): (r: string)
    ensures sizes == [] ==> r == ""
    ensures |sizes| == 1 ==> r == WebpEntry(env, name, sizes[0])
  {
    Join(WebpEntries(env, name, sizes), ", ")
  }

  /** A srcset starts with the entry of the first size and ends with that of the last. */
  lemma SrcSetEdges(env: CdnEnv, name: string, sizes: seq<string>)
    requires sizes != []
    ensures StartsWith(SrcSet(env, name, sizes), WebpEntry(env, name, sizes[0]))
    ensures EndsWith(SrcSet(env, name, sizes), WebpEntry(env, name, sizes[|sizes| - 1]))
  {
    JoinEdges(WebpEntries(env, name, sizes), ", ");
  }

  /** `generateSrcSet`: one entry per requested size, pushed in order, then joined. */
  method GenerateSrcSet(env: CdnEnv, name: string, sizes: seq<string>) returns (srcset: string)
    ensures srcset == Join(seq(|sizes|, i requires 0 <= i < |sizes| => WebpEntry(env, name, sizes[i])), ", ")
  {
    var entries: seq<string> := [];
    for n := 0 to |sizes|
      invariant entries == WebpEntries(env, name, sizes[..n])
    {
      assert sizes[..n + 1] == sizes[..n] + [sizes[n]];
      entries := entries + [CdnUrl(env, ImagePath(sizes[n], name, "webp")) + " " + Interpolated(WebpWidth(sizes[n]))];
    }
    assert sizes[..|sizes|] == sizes;
    srcset := Join(entries, ", ");
  }

  /** The srcset of two lists of sizes is the srcset of each, separated by a comma. */
  lemma SrcSetConcat(env: CdnEnv, name: string, a: seq<string>, b: seq<string>)
    requires a != [] && b != []
    ensures SrcSet(env, name, a + b) == SrcSet(env, name, a) + ", " + SrcSet(env, name, b)
  {
    EntriesConcat(env, name, a, b);
    JoinConcat(WebpEntries(env, name, a), WebpEntries(env, name, b), ", ");
  }

  /** The entries of two lists of sizes are the entries of each. */
  lemma EntriesConcat(env: CdnEnv, name: string, a: seq<string>, b: seq<string>)
    ensures WebpEntries(env, name, a + b) == WebpEntries(env, name, a) + WebpEntries(env, name, b)
  {
    var l, r := WebpEntries(env, name, a), WebpEntries(env, name, b);
    forall i | 0 <= i < |a + b|
      ensures WebpEntries(env, name, a + b)[i] == (l + r)[i]
    {
      if i < |a| {
        assert (a + b)[i] == a[i];
      } else {
        assert (a + b)[i] == b[i - |a|];
      }
    }
  }

  /** A single size gives a single entry: its WebP file under the CDN and its width. */
  lemma SingleSizeSrcSet(env: CdnEnv, name: string, size: string)
    ensures SrcSet(env, name, [size]) == CdnUrl(env, ImagePath(size, name, "webp")) + " " + Interpolated(WebpWidth(size))
  {
  }

  /** The default srcset lists the small, medium and large WebP files at 300, 600 and 1200
      pixels, in that order. */
  lemma DefaultSrcSet(env: CdnEnv, name: string)
    ensures SrcSet(env, name, DefaultSizes) ==
      CdnUrl(env, ImagePath("small", name, "webp")) + " 300w, "
      + CdnUrl(env, ImagePath("medium", name, "webp")) + " 600w, "
      + CdnUrl(env, ImagePath("large", name, "webp")) + " 1200w"
  {
    DefaultSrcSetSplits(env, name);
    DefaultEntries(env, name);
  }

  /** The default srcset is the three single-size srcsets, comma-separated. */
  lemma DefaultSrcSetSplits(env: CdnEnv, name: string)
    ensures SrcSet(env, name, DefaultSizes) ==
      SrcSet(env, name, ["small"]) + ", " + SrcSet(env, name, ["medium"]) + ", " + SrcSet(env, name, ["large"])
  {
    ThreeSizeSrcSet(env, name, "small", "medium", "large");
  }

  /** The srcset of three sizes is their entries, comma-separated. */
  lemma ThreeSizeSrcSet(env: CdnEnv, name: string, a: string, b: string, c: string)
    ensures SrcSet(env, name, [a, b, c]) ==
      SrcSet(env, name, [a]) + ", " + SrcSet(env, name, [b]) + ", " + SrcSet(env, name, [c])
  {
    var x, y, z := WebpEntry(env, name, a), WebpEntry(env, name, b), WebpEntry(env, name, c);
    assert WebpEntries(env, name, [a, b, c]) == [x, y, z];
    assert SrcSet(env, name, [a]) == x && SrcSet(env, name, [b]) == y && SrcSet(env, name, [c]) == z;
    JoinThree(x, y, z, ", ");
  }

  /** The single-size srcsets of the default sizes. */
  lemma DefaultEntries(env: CdnEnv, name: string)
    ensures SrcSet(env, name, ["small"]) == CdnUrl(env, ImagePath("small", name, "webp")) + " 300w"
    ensures SrcSet(env, name, ["medium"]) == CdnUrl(env, ImagePath("medium", name, "webp")) + " 600w"
    ensures SrcSet(env, name, ["large"]) == CdnUrl(env, ImagePath("large", name, "webp")) + " 1200w"
  {
    DefaultWidths();
    SingleSizeSrcSet(env, name, "small");
    SingleSizeSrcSet(env, name, "medium");
    SingleSizeSrcSet(env, name, "large");
  }

  /** The descriptors of the default sizes. */
  lemma DefaultWidths()
    ensures Interpolated(WebpWidth("small")) == "300w"
    ensures Interpolated(WebpWidth("medium")) == "600w"
    ensures Interpolated(WebpWidth("large")) == "1200w"
  {
  }

  /** One entry of the JPEG `srcset`, built on the base `getCDNUrl('')`. */
  function JpegEntry(base: string, name: string, size: string): string {
    base + ImagePath(size, name, "jpg") + " " + JpegWidth(size)
  }

  /** The JPEG `srcset` of `generatePictureElement` (`sizes.map(...).join(', ')`). */
  function JpegSrcSet(base: string, name: string, sizes: seq<string>): (r: string)
  {
    Join(seq(|sizes|, i requires 0 <= i < |sizes| => JpegEntry(base, name, sizes[i])), ", ")
  }

  /** The attribute values of the picture element. */
  datatype Picture = Picture(className: string, webpSrcset: string, jpegSrcset: string, src: string, alt: string)

  /** `generatePictureElement`, its attribute values. */
  function PictureElement(env: CdnEnv, name: string, alt: string, sizes: Option<seq<string>>, className: Option<string>): (p: Picture)
    ensures p.src == CdnUrl(env, ImagePath("medium", name, "jpg"))
    ensures p.webpSrcset == SrcSet(env, name, SizesOrDefault(sizes))
    ensures p.className == (if className.Some? then className.value else "")
    ensures p.alt == alt
  {
    CdnUrlIsBasePlusPath(env, ImagePath("medium", name, "jpg"));
    var base := CdnUrl(env, "");
    var s := SizesOrDefault(sizes);
    Picture(className.GetOr(""), SrcSet(env, name, s), JpegSrcSet(base, name, s),
      base + ImagePath("medium", name, "jpg"), alt)
  }

  /** The JPEG entries name the same CDN as the WebP ones: each is the CDN URL of the size's
      JPEG file and its JPEG width. */
  lemma JpegEntriesUnderCdn(env: CdnEnv, name: string, sizes: seq<string>)
    ensures PictureElement(env, name, "", Some(sizes), None).jpegSrcset ==
      Join(seq(|sizes|, i requires 0 <= i < |sizes| => CdnUrl(env, ImagePath(sizes[i], name, "jpg")) + " " + JpegWidth(sizes[i])), ", ")
  {
    var base := CdnUrl(env, "");
    forall i | 0 <= i < |sizes|
      ensures JpegEntry(base, name, sizes[i]) == CdnUrl(env, ImagePath(sizes[i], name, "jpg")) + " " + JpegWidth(sizes[i])
    {
      CdnUrlIsBasePlusPath(env, ImagePath(sizes[i], name, "jpg"));
    }
    assert seq(|sizes|, i requires 0 <= i < |sizes| => JpegEntry(base, name, sizes[i]))
      == seq(|sizes|, i requires 0 <= i < |sizes| => CdnUrl(env, ImagePath(sizes[i], name, "jpg")) + " " + JpegWidth(sizes[i]));
  }
}
