/** What a key of the trusted-keys manifest may sign for (src/lib/trustedKeysManifest.ts). */
module Capabilities {

  datatype Capability = Admin | Operator | Server
}
