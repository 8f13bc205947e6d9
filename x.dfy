/** The record of credentials the social-platform client is built from. */
module X {

  /** The five credentials; `Database.GetXAuthBundle` fills every one of them. */
  datatype AuthenticationBundle = AuthenticationBundle(
    bearerToken: string,
    apiKey: string,
    apiKeySecret: string,
    accessToken: string,
    accessTokenSecret: string)
}
