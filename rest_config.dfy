/**
  The dial installer: `wrapConfigFn` in cmd/helm/helm.go swaps the dial
  function of client-go's REST configuration for the Ziti dialer.
*/
module RestConfigWrap {

  /**
    The dial function a REST configuration carries: Go's default net dial
    (a nil `Dial`) or `dialFunc`, which dials the Ziti service.
  */
  datatype Dialer = NetDialer | ZitiDialer

  /** The part of `rest.Config` the model keeps: a few settings and `Dial`. */
  class RestConfig {
    var host: string
    var apiPath: string
    var bearerToken: string
    var dial: Dialer

    constructor (host: string, apiPath: string, bearerToken: string)
      ensures this.host == host && this.apiPath == apiPath && this.bearerToken == bearerToken
      ensures dial == NetDialer
    {
      this.host, this.apiPath, this.bearerToken := host, apiPath, bearerToken;
      dial := NetDialer;
    }
  }

  /**
    `wrapConfigFn`: set `Dial` to the Ziti dialer and hand back the same
    object; no other setting changes.
  */
  method WrapConfigFn(restConfig: RestConfig) returns (r: RestConfig)
    modifies restConfig`dial
    ensures r == restConfig
    ensures restConfig.dial == ZitiDialer
    ensures unchanged(restConfig`host, restConfig`apiPath, restConfig`bearerToken)
  {
    restConfig.dial := ZitiDialer;
    r := restConfig;
  }
}
