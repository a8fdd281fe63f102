/** The one HTTP notion the launchers share: `response.ok` in the scripts, and the explicit
    `statusCode >= 200 && statusCode < 300` of the vmess.js registration, both mean a 2xx
    status. */
module Http {
  predicate IsOk(status: int) {
    200 <= status < 300
  }
}
