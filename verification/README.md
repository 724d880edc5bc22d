# A verified model of the v2x-pki-client trust and message protocol

v2x-pki-client is a C-ITS PKI client: it discovers trust (TLM, ECTL, root CA CTLs, CRLs), enrols a
station for an enrolment credential (EC) and fetches authorization tickets (ATs), following ETSI
TS 102 941, ETSI TS 103 097 and IEEE 1609.2. This project models that protocol in Dafny 4.11 and
proves what it does over every input, every network behaviour and every run. `dafny verify
dfyconfig.toml` checks all of it.

## How the model is built

- **Foreign code is a parameter.** OpenSSL and the generated COER codecs are the function-valued
  fields of `PlatformModel.Platform`. `Lawful` lists every assumption: compression and ECDH agree
  with the public key of a usable scalar, a signature made with a key verifies under it, CCM opening
  inverts sealing, and a codec decodes what it managed to encode. Digest lengths are in the types. No
  encoding is assumed to succeed and no hash is assumed injective. Every theorem holds for every
  lawful platform. `ToyPlatform` gives concrete lawful ones, with a codec for whatever is on its tables;
  on them `RequestWitnesses`, `RunWitnesses` and `DiscoveryWitness` play requests, whole exchanges, chains
  and a discovery, so that no main theorem speaks of situations that cannot arise.
- **The outside world is a parameter.** A network is any function of the number of earlier requests
  in the same call, the URL and the body. The clock, random values and the key store are arguments of
  each call. ASN.1 messages are datatypes, with an `Option` where the code tests a pointer.
- **State is in objects.** `RevocationStore`, `TrustChain` and `PkiClient` are classes; chain
  validation reads the revocation store through a shared reference. Loops and step-by-step code are
  methods, each proved equal to a function of its inputs; the theorems are about those functions. Every
  function that both a sender and a receiver use is also pinned on its own, by an if-and-only-if that is
  written out in terms of the platform's primitives.
- `Authorities` and `EndToEnd` model the receiving side (EA and AA), which the repository does not
  contain, with the repository's own unwrapping, verification and ECIES functions. They are the
  partner that the request builders are proved against.

| file | content |
|---|---|
| Basics, Sizes, Asn, Platform | bytes and errors, curve tables, wire structures, assumed contracts |
| CurvePoints, CertParse, CertBuilder | SEC1 points, parsed certificates, built certificates |
| Ecies, SignedMessages, SignedEnvelopes, EncryptedMessages | KDF2 and ECIES, verify, sign, encrypted data and responses |
| Requests, Authorities, EndToEnd | EC and AT requests, their recipients, both sides together |
| Revocation, TrustStore, TrustLists | CRLs, chain validation, ECTL and CTL |
| ClientOps, Discovery, PkiClient, ClientRuns | operations, discovery, the client object, all runs |
| HttpRetry | the retry loop |
| ToyPlatform, RequestWitnesses, RunWitnesses, DiscoveryWitness | lawful platforms and what happens on them |

## Where code and promise differ

- A newer CRL replaces the issuer's whole set, so a revocation is not permanent
  (`Revocation.PermanenceIff`, `Revocation.PermanenceFails`).
- An admitted EC record of more than 2730 days requests 65536 hours less than admitted
  (`Requests.RequestedPeriods`, `Requests.WrappedPeriod`).
- The record validators admit NIST P-384, but neither request encoder has a variant for such a key:
  what they emit is accepted exactly on the other three curves (`Authorities.EnrolmentAcceptedIff`,
  `Authorities.AuthorizationAcceptedIff`). On a codec that encodes an absent point such requests are
  emitted and refused (`RequestWitnesses.EnrolmentWitness`, `RequestWitnesses.AuthorizationWitness`); on
  one that does not, every admitted record ends in an encoding error
  (`Authorities.AbsentPointNotEncoded`). Signatures on NIST P-384 are written as Brainpool P-384
  (`SignedEnvelopes.NistP384ReadAsBrainpool`).
- The authorization encoder signs with the EC's key on the curve of the ticket and never looks at the
  curve of the EC. A request is granted exactly when the EC's certified key verifies that signature
  (`Authorities.EcSignatureValidatesIff`); every request is granted on every platform exactly when
  EC and ticket are on the same curve, other than NIST P-384, or on curves of different sizes, and
  then none is emitted (`RequestWitnesses.GrantedByCurve`, with a refused request in
  `RequestWitnesses.AuthorizationWitness`).
- The comment on the retry loop promises an error only if no response was ever obtained; the code
  looks at the last attempt only. The promise is kept exactly when no response is followed, within the
  budget, by attempts that end without one (`HttpRetry.PromiseKeptIff`, `HttpRetry.LostResponse`).
- A CRL may be asked for at another address than the CTL of the same root CA
  (`Discovery.CrlBaseAgrees`, `DiscoveryWitness.BaseMayMove`).
- The comment on `CertInfo::hashed_id_8` says SHA-256; the code uses SHA-384 for 384-bit keys, so the
  comment holds, whatever the hashes are, of exactly the certificates without such a key
  (`CertParse.Sha256IdIff`, `CertParse.Sha256IdFails`).
- The certificate builder takes any 65-byte key; what it returns is what its bytes parse to exactly
  when the key has the prefix of an uncompressed point (`CertBuilder.BuiltCertReparses`).

## Model

| member | source | states |
|---|---|---|
| `Sizes.TaiConversionsAgree` | include/v2xpki/sizes.hpp:111-117 | for every instant, the microsecond conversion floored to seconds is the second conversion |
| `Sizes.ToInt64` | include/v2xpki/trust_chain.hpp:42-44 | the 64-bit conversion is the identity on the signed range and never leaves it |
| `PlatformModel.BothFormsMatch` | src/crypto_ec.cpp:74-125 | the compressed and the uncompressed form of a public key are imported as the same point |
| `PlatformModel.SignatureVerifies` | src/crypto_ec.cpp:281-352 | for a usable key and a digest of the curve's length, signing succeeds with r and s of scalar length and either form of the public key verifies it |
| `PlatformModel.DigestCheckIff` | src/crypto_ec.cpp:335-352 | the digest test is exactly the primitive signature check over the hash of the two hashes, by the point the key names, with the hash of the curve's size |
| `CurvePoints.SignatureReadBack` | src/internal/curve_point.cpp:158-206 | reading a written signature always gives r and s back; the curve survives exactly when it is not NIST P-384 |
| `CurvePoints.ExtractSigIff` | src/internal/curve_point.cpp:158-206 | a signature is read exactly when its variant names the curve, r is the x coordinate of its point and both numbers have the curve's length |
| `CurvePoints.CompressedKeyMatches` | src/internal/curve_point.cpp:17-67 | a key that travels compressed is still matched by its private key |
| `CertParse.DurationBound` | src/internal/cert_parse.cpp:66-79 | every duration with a 16-bit count is at most 65535 years of seconds |
| `CertParse.DurationIsFloor` | src/internal/cert_parse.cpp:66-79 | every unit, years included, is read as the whole seconds of the time it denotes |
| `CertParse.ParsedIdentity` | src/internal/cert_parse.cpp:83-197 | a certificate parsed with its own encoding carries the HashedId8 of its bytes, if it kept any, and a bounded validity |
| `CertParse.IssuerParsed` | src/internal/cert_parse.cpp:86-108 | the self-signed flag, hash and issuer identity each choice of issuer gives |
| `CertParse.PeriodParsed` | src/internal/cert_parse.cpp:163-166 | a parsed certificate is valid exactly from its start for the whole seconds of its exact duration |
| `CertParse.BytesParsed` | src/internal/cert_parse.cpp:30-61 | bytes, signed part, r and s of a parsed certificate, and the HashedId8 as the last 8 bytes of the chosen hash |
| `CertParse.KeysParsed` | src/internal/cert_parse.cpp:110-161 | each key choice gives its curve and the SEC1 bytes of its point |
| `CertParse.HashDispatchAgrees` | src/internal/cert_parse.cpp:30-142 | the hash chosen for the HashedId8 is the one of the parsed curve, exactly when no 384-bit key choice is left without a point |
| `CertParse.Sha256IdIff` | include/v2xpki/trust_chain.hpp:21 | the identity is that of SHA-256 on all platforms exactly when the key choice is not a 384-bit one |
| `CertParse.Sha256IdFails` | src/internal/cert_parse.cpp:30-61 | a certificate with a Brainpool P-384 key has that identity only where the two hashes end alike |
| `CertParse.ParsedKeysMatch` | src/internal/cert_parse.cpp:110-161 | a certificate's verification key (four curves) and encryption key (two curves), compressed or not, parse to the named curve and a key the matching private key works with |
| `CertParse.WindowExact` | include/v2xpki/trust_chain.hpp:40-45 | the validity test is the half-open interval of unbounded arithmetic at all 64-bit times exactly when the end fits in 63 bits |
| `CertParse.WellParsedWindow` | include/v2xpki/trust_chain.hpp:40-45 | for parsed certificates the validity test is start inclusive, end exclusive, without overflow |
| `CertBuilder.BuiltCertReparses` | src/trust_chain.cpp:306-370 | parsing the bytes of a built certificate gives the record the builder filled by hand exactly when the key has the prefix 04, and otherwise differs in that prefix only |
| `CertBuilder.BuiltCertContents` | src/trust_chain.cpp:306-350 | a built certificate decodes to its name, thirty years, the given key, its right to issue and its issuer |
| `CertBuilder.BuiltCertVerifies` | src/trust_chain.cpp:269-304 | the builder's double hash is the verifier's: a certificate built with the issuer's key verifies under the issuer |
| `CertBuilder.BuiltChainsValidate` | src/trust_chain.cpp:269-379 | two- and three-level chains built from matching keys validate at every time of the 30 years, in every store that files the issuers under their own HashedId8 |
| `RunWitnesses.ChainWitness` | src/trust_chain.cpp:269-379 | such chains exist, with distinct HashedId8 values |
| `Ecies.Kdf2Sha256` | src/ecies.cpp:21-53 | the loop terminates with exactly the requested prefix of the joined hash blocks |
| `Ecies.Kdf2Block` | src/ecies.cpp:28-50 | the j-th 32 bytes are the hash of Z, the big-endian counter of block j, wrapping at 32 bits, and P1 |
| `Ecies.Kdf2Prefix` | src/ecies.cpp:21-53 | a shorter output is a prefix of a longer one |
| `Ecies.Be32Decodes` | src/ecies.cpp:29-33 | the four counter bytes determine the counter, most significant first |
| `Ecies.XorKeys` | src/ecies.cpp:150-153 | the in-place loop computes the byte-wise XOR |
| `Ecies.EciesEncrypt` | src/ecies.cpp:133-174 | encryption yields exactly the specified ephemeral key, wrapped key, truncated MAC and CCM output, or nothing when a guard or primitive fails |
| `Ecies.EciesDecrypt` | src/ecies.cpp:182-210 | decryption does the specified steps in order |
| `Ecies.UnwrappedKeyIff` | src/ecies.cpp:188-206 | a content key is recovered exactly when the received tag is the MAC of its wrapping under K2, and then it is the wrapping XOR K1, byte by byte |
| `Ecies.EciesDecryptedIff` | src/ecies.cpp:182-210 | decryption succeeds exactly when a key is recovered so and the content opens under it |
| `Ecies.EciesEncryptedIs` | src/ecies.cpp:133-174 | what encryption emits, in terms of the shared secret, K1 and K2 and the primitives |
| `Ecies.KeysDerived` | src/ecies.cpp:21-53 | K1 and K2 are the first 48 bytes of H(Z, 1, P1) and H(Z, 2, P1) |
| `Ecies.EciesRoundTrip` | src/ecies.cpp:133-210 | for every P1, the recipient's private key recovers the content key and the plaintext, in whichever form the ephemeral key arrives |
| `SignedMessages.Unwrap` | src/internal/signed_message.cpp:29-76 | unwrapping keeps exactly the specified fields and refuses everything but a non-empty unsecured payload |
| `SignedMessages.Verify` | src/internal/signed_message.cpp:81-112 | a message verifies exactly when sizes fit, a signer digest names the given certificate and the double hash verifies on the signature's curve |
| `SignedMessages.VerifiesIff` | src/internal/signed_message.cpp:81-112 | in terms of the primitives, a message verifies exactly when its signature holds on the curve it names and a signer digest is the identity of the certificate |
| `SignedMessages.UnwrappedIff` | src/internal/signed_message.cpp:29-76 | which bytes unwrap to which message, with the lenient decoding and what is kept of signer and signature |
| `SignedEnvelopes.FinalizeSignedData` | src/internal/signed_envelope.cpp:80-138 | the built envelope is the encoding of the specified signed node, or no bytes |
| `SignedEnvelopes.EnvelopeDecodes` | src/internal/signed_envelope.cpp:41-138 | every envelope that was built decodes to its parts, signer and signature intact |
| `SignedEnvelopes.EnvelopeFramed` | src/internal/signed_envelope.cpp:86-138 | every envelope has version 3, the SCR service, the time it was built at and the hash that goes with its signature |
| `SignedEnvelopes.EnvelopeVerifies` | src/internal/signed_envelope.cpp:80-206 | on three curves the verifier accepts every envelope built with the matching key, also an external payload |
| `SignedEnvelopes.SignThenVerify` | src/internal/signed_envelope.cpp:140-176 | unwrapping a built envelope succeeds exactly for a non-empty payload, returns it, and it verifies |
| `SignedEnvelopes.NistP384ReadAsBrainpool` | src/internal/signed_envelope.cpp:60-71 | a NIST P-384 envelope is verified on Brainpool P-384, with the same digest, r and s |
| `EncryptedMessages.WireRoundTrip` | src/internal/encrypted_data.cpp:28-141 | through the wire form, on both ECIES curves, the addressee recovers content key and plaintext for every P1, and the client's own decryption recovers it for an empty P1 |
| `EncryptedMessages.ResponseAcceptedIff` | src/ec_request.cpp:196-229 | a response is accepted, and as saying r, exactly when it opens, the primitive signature check holds under the authority's key, it decodes, and its hash is written out the first 16 bytes of SHA-256 of the request as sent |
| `EncryptedMessages.DecryptedIff` | src/internal/encrypted_data.cpp:90-141 | which key opens an encrypted message, and how it splits into ciphertext and tag |
| `EncryptedMessages.ResponseErrors` | src/ec_request.cpp:196-229 | which error the first failing step gives |
| `EncryptedMessages.ReplyAccepted` | src/at_request.cpp:298-331 | every reply built with the request's key, hash and the authority's certificate is accepted and read as meant |
| `Requests.ValidateAtRecord` | src/at_request.cpp:60-80 | a record is admitted exactly when key form, psids and period are in order |
| `Requests.RecordsAdmittedIff` | src/ec_request.cpp:56-76 | what both validators admit, in numbers |
| `Requests.RequestedPeriods` | src/ec_request.cpp:79-91 | admitted AT hours are capped at 65535; admitted EC days are requested exactly up to 2730 and otherwise fall short by 65536 hours |
| `Requests.WrappedPeriod` | src/ec_request.cpp:70-87 | an admitted record for 2731 days requests 8 hours |
| `Requests.BuildAttributes` | src/at_request.cpp:148-164 | the loop turns every psid, in order, into one permission entry |
| `Requests.EncryptForAuthority` | src/at_request.cpp:187-203 | encryption uses the encryption key or falls back to the verification key, the encryption curve, and P1 the hash of the certificate |
| `Requests.EncodeEcRequest` | src/ec_request.cpp:95-192 | the encoder computes the specified nested request, with the specified error for each failing step |
| `Requests.EcRequestOutcome` | src/ec_request.cpp:95-192 | the layers of the request and the error of each failing step |
| `Requests.EncodeEcSignature` | src/at_request.cpp:172-207 | the EC signature is an external-payload envelope over the hash of the shared request, encrypted to the EA |
| `Requests.EncodeAtRequest` | src/at_request.cpp:110-294 | the encoder computes the specified nested request |
| `Requests.AtRequestOutcome` | src/at_request.cpp:110-294 | the layers of the request and the error of each failing step |
| `Requests.AtOuterOutcome` | src/at_request.cpp:225-294 | the outer layers, and that what is sent has 1 to 2048 bytes |
| `Requests.EcSignatureOutcome` | src/at_request.cpp:172-207 | the EC signs the hash of the shared request, of the curve's size, and the error of each failing step |
| `Requests.EncryptToOutcome` | src/at_request.cpp:187-203 | which key, curve and P1 are used for an authority, and the error of each failing step |
| `Authorities.EnrolmentAccepted` | src/ec_request.cpp:95-192 | every emitted EC request opens for the EA, both signatures prove possession of the embedded key, and the EA learns the request and the response key |
| `Authorities.EnrolmentAcceptedIff` | src/ec_request.cpp:108-122 | with a key of the record's curve, acceptance holds exactly on the three curves other than NIST P-384 |
| `Authorities.AuthorizationAccepted` | src/at_request.cpp:110-294 | every emitted AT request opens for the AA, proves possession of the new key, carries written out the first 16 bytes of HMAC(hmacKey, OER(key)) as keyTag, and the EA grants it exactly when it is the EA named and the EC's key verifies the EC signature over exactly the embedded shared request |
| `Authorities.NistP384NeverAccepted` | src/at_request.cpp:118-132 | an emitted request for a NIST P-384 key is never accepted |
| `Authorities.AuthorizationAcceptedIff` | src/at_request.cpp:118-132 | with a matching ticket key, whatever the EC, the AA accepts exactly the requests on the three curves other than NIST P-384 |
| `Authorities.EcKeyOfOtherSizeRefused` | src/at_request.cpp:172-178 | the EC signs on the ticket's curve, so with an EC key of the other size no request is ever emitted |
| `Authorities.EcSignatureValidatesIff` | src/at_request.cpp:172-207 | for every EC key, also on another curve, the EA validates exactly when it is the EA named and the EC's certified key verifies what the private key signed on the ticket's curve |
| `Authorities.EcVouchesByCurve` | src/at_request.cpp:172-178 | a key pair on the ticket's curve always verifies, an EC key that is no point of it never |
| `Authorities.AbsentPointNotEncoded` | src/at_request.cpp:118-137 | with a codec that refuses an absent point, every admitted NIST P-384 record ends in an encoding error |
| `RequestWitnesses.EnrolmentWitness` | src/ec_request.cpp:56-192 | on every curve there is an admitted record whose request is emitted; it is accepted exactly if the curve is not NIST P-384 |
| `RequestWitnesses.AuthorizationWitness` | src/at_request.cpp:60-294 | for every two curves of one size there is an admitted record whose request is emitted; it is granted exactly if the curves are equal and not NIST P-384 |
| `RequestWitnesses.GrantedByCurve` | src/at_request.cpp:172-178 | which pairs of EC and ticket curve guarantee that every emitted request is granted, and which that none is emitted |
| `EndToEnd.EnrolmentCompletes` | src/pki_client.cpp:94-128 | against an honest EA that holds only its own keys, an enrolment whose messages encode and whose certificate chains to the store returns exactly that certificate, and the EA's refusal on NIST P-384 |
| `EndToEnd.AuthorizationCompletes` | src/pki_client.cpp:130-175 | the same for authorization, with the EA validating the EC signature for the AA: the certificate exactly if the EC vouches and the curve is not NIST P-384, the AA's refusal otherwise |
| `RunWitnesses.EnrolmentCompletesWitness` | src/pki_client.cpp:94-128 | an enrolment that ends so, for every curve |
| `RunWitnesses.AuthorizationCompletesWitness` | src/pki_client.cpp:130-175 | an authorization that ends so, for every two curves of one size |
| `EndToEnd.RecordReachesAa` | src/at_request.cpp:84-106 | the shared request asks for the record's psids, EA and capped period, from the time of the call in TAI seconds |
| `EndToEnd.StartIs` | src/at_request.cpp:49-54 | the start is the Unix time less 1072915195, zero before and wrapping at 32 bits |
| `EndToEnd.RecordReachesEa` | src/ec_request.cpp:79-91 | the inner request asks for the SCR psid under the record's or the default name, from the time of the call and, up to 2730 days, for exactly the record's period |
| `Revocation.DecodeCrl` | src/revocation.cpp:20-63 | decoding yields the specified contents, skipping entries that are not 8 bytes long, with the specified error for each failing step |
| `Revocation.DecodedCrlIff` | src/revocation.cpp:20-63 | a CRL is decoded exactly when the primitive signature check holds, it names its signer by digest and that is the given certificate; it then lists exactly the 8-byte entries, with the dates of the list |
| `Revocation.CrlSpeaksForSigner` | src/revocation.cpp:46-51 | a decoded CRL names the certificate it was verified with as its issuer |
| `Revocation.RevocationStore.Apply` | src/revocation.cpp:65-71 | a stale CRL is refused and changes nothing; any other replaces its issuer's set |
| `Revocation.AppliedExactly` | src/revocation.cpp:65-71 | in plain arithmetic, when a CRL is stale and what is revoked after it is applied |
| `Revocation.RevokedByLastAccepted` | src/revocation.cpp:65-78 | over every sequence of applications, a certificate is revoked under i exactly when the last accepted CRL of i lists it |
| `Revocation.OtherIssuersUntouched` | src/revocation.cpp:65-78 | an application never changes another issuer's revocations |
| `Revocation.PermanenceIff` | include/v2xpki/revocation.hpp:32-36 | a revocation survives a CRL exactly when the CRL is refused, another issuer's, or still lists the certificate |
| `Revocation.PermanenceFails` | include/v2xpki/revocation.hpp:32-36 | a shortened CRL reinstates a certificate |
| `TrustStore.TrustChain.VerifyCertSignature` | src/trust_chain.cpp:120-151 | a certificate verifies exactly when sizes fit and the double hash, with the hash it names, verifies under the issuer's key |
| `TrustStore.VerifiesCertIff` | src/trust_chain.cpp:120-151 | a certificate verifies exactly when r and s pass the primitive signature check of the issuer's key over the hash it names of its own and the issuer's bytes |
| `TrustStore.TrustChain.ValidateChain` | src/trust_chain.cpp:80-113 | the early-exit procedure equals the recursive path specification cut at two hops, on the live store and revocations |
| `TrustStore.TrustChain.LoadFromDirectory` | src/trust_chain.cpp:41-65 | readable, non-empty regular .cert files that parse are added in order under their own identity, other entries are passed over, and the result says whether there was one |
| `TrustStore.CertInIff` | src/trust_chain.cpp:46-60 | exactly which files count, and as what |
| `ClientOps.LoadedHolds` | src/trust_chain.cpp:41-65 | every certificate of the directory is stored under its identity, and nothing else changes |
| `TrustStore.TrustChain.AddCert` | src/trust_chain.cpp:67-70 | one entry is replaced or added, under the certificate's own HashedId8 |
| `TrustStore.ReachesIffPath` | src/trust_chain.cpp:80-108 | reaching an anchor within any number of hops is the existence of an anchored path of at most that length, all of it valid |
| `TrustStore.ValidChainIffTrusted` | src/trust_chain.cpp:80-113 | validation accepts exactly when one or two issuer hops lead to a self-signed anchor, everything on the path valid, signed and unrevoked |
| `TrustStore.AcceptedExactly` | src/trust_chain.cpp:80-113 | acceptance written out down to the primitive signature checks, revocation entries and validity of one or two issuers |
| `TrustStore.AnchoredPathsAcyclic` | src/trust_chain.cpp:80-108 | however the issuer links of the store loop, no path to an anchor repeats a certificate |
| `TrustStore.AcceptedTimes` | src/trust_chain.cpp:80-113 | for a fixed store the accepted times are none or the half-open interval from the latest start to the earliest end of the chain |
| `TrustStore.AddingKeepsAccepting` | src/trust_chain.cpp:67-108 | a certificate added under an unused key never turns acceptance into rejection |
| `TrustStore.RevokingKeepsRejecting` | src/trust_chain.cpp:80-113 | larger revocation sets never turn rejection into acceptance |
| `TrustStore.ReplacingMayReject` | src/trust_chain.cpp:67-70 | overwriting the issuer's entry by a certificate that is never valid turns acceptance into rejection |
| `TrustStore.OnlyTheChainMatters` | src/trust_chain.cpp:80-108 | overwriting or adding an entry that is no issuer along the chain never changes the verdict |
| `TrustStore.LinkHashMatchesIssuer` | src/trust_chain.cpp:120-151 | a link verifies only if the hash it names is SHA-384 exactly when the issuer's key is 384 bits |
| `TrustStore.AnchorTestIsSafe` | src/pki_client.cpp:60-65 | the missing-anchor test never rejects a chain that would validate |
| `TrustLists.ParseCtlEntries` | src/trust_list.cpp:80-162 | the loop applies the commands in order to the dated topology |
| `TrustLists.EntriesSorted` | src/trust_list.cpp:100-161 | every kind of entry is reported under its own heading, with its access points, complete and in order; the last TLM entry counts |
| `TrustLists.DecodeCtl` | src/trust_list.cpp:191-223 | a list is decoded whether or not it verifies, and the verdict is kept with it |
| `TrustLists.DecodedCtlIff` | src/trust_list.cpp:80-223 | exactly which messages decode as a list of the wanted kind, with dates, expiry and entries |
| `TrustLists.SignedUnderIff` | src/trust_list.cpp:211-222 | in terms of the primitives, when a list counts as signed |
| `TrustLists.VerdictMeansSigned` | src/trust_list.cpp:211-222 | the verdict is true exactly when key and certificate are given and verify the message |
| `TrustLists.DecodedWellParsed` | src/trust_list.cpp:68-77 | every certificate on a decoded list carries the identity of its bytes |
| `TrustLists.FindDcUrl` | src/pki_client.cpp:35-47 | the search loop computes the specified lookup |
| `TrustLists.DcUrlIsFirst` | src/pki_client.cpp:35-47 | the lookup is the base address of the first centre that serves the root CA, the fallback exactly if none does |
| `TrustLists.BaseUrlIff` | src/pki_client.cpp:35-47 | exactly one trailing slash is left out of an address, if there is one |
| `TrustLists.LookupAfterAppend` | src/pki_client.cpp:328-329 | appended centres matter only to root CAs that were not served yet |
| `Discovery.DiscoverySucceedsIff` | src/pki_client.cpp:214-345 | discovery succeeds exactly when the TLM is fetched, the ECTL is delivered, decodes and is signed by it, and so is every CTL that is delivered, by its root CA |
| `Discovery.DiscoveryStops` | src/pki_client.cpp:214-345 | what is stored and returned when a step fails |
| `Discovery.EctlErrors` | src/pki_client.cpp:263-287 | which error the ECTL step gives |
| `Discovery.DiscoveryStores` | src/pki_client.cpp:259-330 | the lower bound: the TLM, every root CA of the ECTL and every EA and AA of a verified list is stored under its identity, and nothing else changes |
| `Discovery.AnnouncedStored` | src/pki_client.cpp:259-330 | with distinct identities each of them is stored as it was announced |
| `Discovery.ReportedInOrder` | src/pki_client.cpp:286-330 | the report lists the ECTL's entries followed by those of the verified lists in the order of their root CAs |
| `Discovery.AddressesAsked` | src/pki_client.cpp:214-300 | the addresses asked, in order, with the centres known by then |
| `Discovery.JudgedIff` | src/pki_client.cpp:298-318 | one CTL is skipped, refused or used exactly according to delivery, decoding and signature |
| `Discovery.RoutingAfterDiscovery` | src/pki_client.cpp:332-344 | on any error topology and URLs are unchanged; on success the reported topology is adopted, with its first EA and AA if it has them, and the old URLs otherwise; revocations never change |
| `Discovery.DiscoveryProvenance` | src/pki_client.cpp:214-330 | for every network, also on failure, each stored certificate was there before, is the TLM, is on an ECTL signed by it, or is on a CTL signed by a root CA of that ECTL |
| `Discovery.CrlBaseAgrees` | src/pki_client.cpp:292-353 | after discovery a CRL is asked for at the base of the root CA's CTL exactly when the root was served by then or no later centre moves it |
| `DiscoveryWitness.BaseMayMove` | src/pki_client.cpp:292-353 | a discovery that succeeds and after which the CRL of its root CA is asked for at another base than its CTL was |
| `PkiClientModel.PkiClient.constructor` | src/pki_client.cpp:75-87 | a new client has the loaded certificates, no revocations and no topology, and validates against the shared revocation store |
| `PkiClientModel.PkiClient.Admit` | src/pki_client.cpp:118-127 | only an ok response with a certificate whose chain is present and validates adds that certificate |
| `ClientOps.AdmittedIff` | src/pki_client.cpp:118-127 | a certificate is taken over exactly when the response says ok and its chain validates, and the error otherwise |
| `PkiClientModel.PkiClient.RequestEnrolmentCredential` | src/pki_client.cpp:94-128 | result and new state are the specified ones for every network answer |
| `ClientOps.EnrolledIff` | src/pki_client.cpp:94-128 | exactly when an enrolment returns a certificate, and which |
| `PkiClientModel.PkiClient.RequestAuthorizationTicket` | src/pki_client.cpp:130-175 | result and new state are the specified ones for every network answer |
| `ClientOps.AuthorizedIff` | src/pki_client.cpp:130-175 | exactly when an authorization returns a certificate, and which |
| `ClientOps.RefusedBeforeSending` | src/pki_client.cpp:94-150 | which error an operation gives before anything is sent |
| `PkiClientModel.PkiClient.FetchTrustAnchor` | src/pki_client.cpp:177-187 | the fetched certificate, if it parses, is the result and the only change |
| `ClientOps.FetchedIff` | src/pki_client.cpp:177-187 | exactly when a fetch yields a certificate, and the error otherwise |
| `PkiClientModel.PkiClient.FetchCertByName` | src/pki_client.cpp:189-199 | the fetched certificate, if it parses, is the result and the only change |
| `PkiClientModel.PkiClient.FetchCertByHashedId8` | src/pki_client.cpp:201-212 | the fetched certificate, if it parses, is the result and the only change |
| `ClientOps.AddressesDiffer` | src/pki_client.cpp:26-32 | two identities never give the same address |
| `ClientOps.HexAt` | src/pki_client.cpp:26-32 | each byte is two digits, high half first, in order |
| `PkiClientModel.PkiClient.FetchCtls` | src/pki_client.cpp:289-330 | the loop over the root CAs stores what the verified lists contribute, in order, and gathers ECTL entries followed by theirs |
| `PkiClientModel.PkiClient.DiscoverTrust` | src/pki_client.cpp:214-345 | result and new state are the specified ones for every network behaviour |
| `PkiClientModel.PkiClient.FetchCrl` | src/pki_client.cpp:347-365 | result and new state are the specified ones for every network answer |
| `ClientOps.FetchedCrlIff` | src/pki_client.cpp:347-365 | exactly when a CRL fetch succeeds, from which address, and with which CRL |
| `ClientRuns.RunFiled` | src/pki_client.cpp:67-84 | over every run each certificate is stored under its own HashedId8, which is that of its bytes if it kept any |
| `ClientRuns.LoadedFiled` | src/trust_chain.cpp:41-70 | a store loaded from a directory is filed that way |
| `ClientRuns.RunAcceptedTimes` | src/trust_chain.cpp:80-113 | after every run the accepted times of a stored certificate form one half-open interval |
| `ClientRuns.CrlReplacesOwnSet` | src/pki_client.cpp:347-365 | a successful CRL fetch for r replaces the set of issuer r and nothing else |
| `ClientRuns.RevokedByLastFetch` | src/pki_client.cpp:347-365 | over every run a certificate is revoked under i exactly when the last successful CRL fetch for i lists it |
| `ClientRuns.RevocationTakesEffect` | src/trust_chain.cpp:89-103 | after a CRL that lists an authority, that authority and all it issued are rejected at all times |
| `ClientRuns.RootRevocationTakesEffect` | src/trust_chain.cpp:104-107 | after a CRL that lists its own root, nothing that root or its authorities issued is accepted |
| `ClientRuns.RevocationLasts` | src/trust_chain.cpp:89-103 | a revoked certificate and all it issued stay rejected at all times over every run without a successful CRL fetch for its issuer |
| `ClientRuns.IssuedCredentialsValidate` | src/pki_client.cpp:94-175 | enrolment and authorization change the store only on success, by one certificate that was trusted in the state before |
| `ClientRuns.RunProvenance` | src/pki_client.cpp:94-345 | after every run each certificate was there at the start or was put there by a fetch that returned it, a discovery that traced it, or an authority response whose chain validated |
| `ClientRuns.AnchorProvenance` | src/pki_client.cpp:94-345 | after every run the anchor of every accepted chain was there at the start, was traced by a discovery or was returned by a plain fetch, never by an authority's response |
| `ClientRuns.RunTopology` | src/pki_client.cpp:214-345 | the topology in use is always that of the last successful discovery |
| `HttpRetry.PerformWithRetry` | src/http_client.cpp:81-107 | at most maxRetries + 1 attempts, stopping at the first final one, total sleep backoff times (2^k - 1) for k retries, and on exhaustion the last attempt decides |
| `HttpRetry.RetriedExactly` | src/http_client.cpp:92-100 | exactly which statuses and failures are tried again |
| `HttpRetry.SleptIs` | src/http_client.cpp:101-102 | the time slept is the sum of waits that double, one before every attempt but the first |
| `HttpRetry.ReturnedReply` | src/http_client.cpp:81-107 | what is returned is the status and body of the deciding attempt |
| `HttpRetry.OutcomeUnique` | src/http_client.cpp:81-107 | that specification leaves one outcome only |
| `HttpRetry.ErrorIff` | src/http_client.cpp:81-107 | an error is returned exactly when the deciding attempt brought no response |
| `HttpRetry.PromiseKeptIff` | src/http_client.cpp:77-107 | the promise of the comment is kept exactly when the attempts do not lose a response, a condition on the attempts alone |
| `HttpRetry.LostResponse` | src/http_client.cpp:77-106 | a 503 followed by a timeout is reported as a network error |

## Left out

- OpenSSL primitives and the generated COER codecs: reduced to the contracts of `Platform.Lawful`.
- Cryptographic strength: only functional correctness under those contracts.
- Fixed-capacity byte buffers (include/v2xpki/static_bytes.hpp): modelled as byte sequences that are refused above their capacity; copying in place and stale bytes behind the length are not modelled, because nothing in the client reads behind the length.
- The issuer HashedId8 of a self-signed or unrecognised issuer: the code leaves it uninitialised, the model sets it to zero; chain validation does not read it for self-signed certificates.
- Clock readings within one call: the model takes one value for all of them.
- `parse_hid8_hex`: reads an identity typed by the user; none of the modelled operations calls it.
- Certificate and header fields that the client does not read (cracaId, crlSeries, application permissions): held in one field `rest` that encodings may depend on, without structure.
- libcurl options, HTTP headers, TLS, and the wiring of the retry loop into the network function.
- Key store files and PEM: the key store is a map.
- The command line, the provisioner tool, logging, `get_by_prefix` and the UPER encoder: no property of interest.
- Delta CTLs, delete commands, link certificates and verification against an embedded signer certificate: not implemented in the repository.
