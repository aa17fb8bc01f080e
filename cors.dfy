/** The `origin` callback of the CORS middleware (backend/src/index.ts:14-21). */
module Cors {
  import opened Slices

  /** The allowed local development origin. */
  const LocalDevOrigin: string := "http://localhost:3000"

  /** The host suffix of Cloudflare Pages deployments, leading dot included. */
  const PagesSuffix: string := ".pages.dev"

  /** The origin answered to every request the rule does not allow. */
  const FallbackOrigin: string := "https://your-production-domain.com"

  /** The value of `Access-Control-Allow-Origin` for a request's `Origin`. */
  function AllowedOrigin(origin: string): (allowed: string)
    ensures allowed == origin || allowed == FallbackOrigin
    ensures allowed == origin <== EndsWith(origin, PagesSuffix) || origin == LocalDevOrigin
    ensures allowed == FallbackOrigin <== !(EndsWith(origin, PagesSuffix) || origin == LocalDevOrigin)
  {
    if EndsWith(origin, PagesSuffix) || origin == LocalDevOrigin then origin else FallbackOrigin
  }

  /** The suffix needs its leading dot, and only port 3000 of localhost is allowed. */
  lemma AllowedOriginExamples()
    ensures AllowedOrigin("https://app.pages.dev") == "https://app.pages.dev"
    ensures AllowedOrigin("https://pages.dev") == FallbackOrigin
    ensures AllowedOrigin("https://evilpages.dev") == FallbackOrigin
    ensures AllowedOrigin("http://localhost:3001") == FallbackOrigin
    ensures AllowedOrigin("http://localhost:3000") == "http://localhost:3000"
  {
    assert "https://app.pages.dev"[11..] == PagesSuffix;
    assert "https://pages.dev"[7..] != PagesSuffix by {
      assert "https://pages.dev"[7] == '/' && PagesSuffix[0] == '.';
    }
    assert "https://evilpages.dev"[11..] != PagesSuffix by {
      assert "https://evilpages.dev"[11] == 'l' && PagesSuffix[0] == '.';
    }
  }
}
